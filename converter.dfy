/**
 * The `Converter` class of converter.py: the list of Books it fills, the
 * clippings parser loop that fills it (converter.py:155-221), the loops of
 * `outputHighlight` that turn it into files (converter.py:223-255) and the
 * dispatch of `getHighlights` (converter.py:36-44).
 *
 * The parser works on Book objects and their lists in place, as the source
 * does; its contract ties what it appends to `self.books` to the pure
 * `Parse` of module Clippings, whose properties are proved there.
 */
module Converter {

  import opened Wrappers
  import opened Text
  import opened Records
  import opened Clippings
  import opened Report
  import opened Seqs

  /** The values of a list of Books, in list order. */
  function Values(bs: seq<Book>): (vs: seq<BookValue>)
    reads set b | b in bs, set b | b in bs :: b.highlights
    reads set b | b in bs :: b.bookmarks
    reads set b | b in bs :: b.notes
    ensures |vs| == |bs|
    ensures forall i :: 0 <= i < |bs| ==> vs[i] == bs[i].Value()
  {
    if bs == [] then [] else Values(bs[..|bs| - 1]) + [bs[|bs| - 1].Value()]
  }

  lemma ValuesAppend(a: seq<Book>, b: seq<Book>)
    ensures Values(a + b) == Values(a) + Values(b)
  {
    assert |Values(a + b)| == |Values(a) + Values(b)|;
    forall i | 0 <= i < |a + b|
      ensures Values(a + b)[i] == (Values(a) + Values(b))[i]
    {
      if i < |a| {
        assert (a + b)[i] == a[i];
      } else {
        assert (a + b)[i] == b[i - |a|];
      }
    }
  }

  /** Two Books that share none of their three lists. */
  predicate Disjoint(a: Book, b: Book)
  {
    a.highlights != b.highlights && a.bookmarks != b.bookmarks && a.notes != b.notes
  }

  /** The three list objects of the Books a map holds. */
  function MapLists(m: map<string, Book>): set<object>
  {
    (set b | b in m.Values :: b.highlights as object)
      + (set b | b in m.Values :: b.bookmarks as object)
      + (set b | b in m.Values :: b.notes as object)
  }

  /** The local variables of the parser loop (converter.py:166-172), with `book_map` holding Book objects. */
  datatype Locals = Locals(
    position: HighlightPosition,
    book: Book,
    kind: HighlightType,
    contents: seq<string>,
    location: int,
    timestamp: int,
    order: seq<string>,
    bookMap: map<string, Book>)

  /** The values of the Books a map holds, key by key. */
  ghost function Snapshot(m: map<string, Book>): (r: map<string, BookValue>)
    reads m.Values, MapLists(m)
    ensures r.Keys == m.Keys
    ensures forall k :: k in m ==> r[k] == m[k].Value()
  {
    map k | k in m :: m[k].Value()
  }

  /** The loop's variables, read in the current heap, as the value the pure parser computes. */
  ghost function Abstract(v: Locals): ParseState
    reads v.book, v.book.highlights, v.book.bookmarks, v.book.notes
    reads v.bookMap.Values, MapLists(v.bookMap)
  {
    ParseState(v.position, v.book.Value(), v.kind, v.contents, v.location, v.timestamp, v.order, Snapshot(v.bookMap))
  }

  /** Each Book of the map is stored under its own title, and so is the current book when its title is a key. */
  ghost predicate Titled(v: Locals)
    reads v.book, v.bookMap.Values
  {
    && (forall k :: k in v.bookMap ==> v.bookMap[k].title == k)
    && (v.book.title in v.bookMap ==> v.bookMap[v.book.title] == v.book)
  }

  /** Books under different titles share no list, and the current book shares none with any other Book of the map. */
  predicate Distinct(v: Locals)
  {
    && (forall k1, k2 :: k1 in v.bookMap && k2 in v.bookMap && k1 != k2 ==> Disjoint(v.bookMap[k1], v.bookMap[k2]))
    && (forall k :: k in v.bookMap && v.bookMap[k] != v.book ==> Disjoint(v.bookMap[k], v.book))
  }

  /** The Book and its three lists are among `owned`. */
  ghost predicate Made(owned: set<object>, b: Book)
  {
    b in owned && b.highlights in owned && b.bookmarks in owned && b.notes in owned
  }

  /**
   * Which objects the parser may change: every Book it handles is the
   * initial `Book()` or a Book it made itself, whose lists it also made; the
   * initial Book, whose lists are the shared defaults, never receives a
   * record, because it is current only before the first title.
   */
  ghost predicate Owned(owned: set<object>, initial: Book, v: Locals)
  {
    && (v.book == initial || Made(owned, v.book))
    && (forall k :: k in v.bookMap ==> v.bookMap[k] == initial || Made(owned, v.bookMap[k]))
    && (v.book == initial ==> v.kind == NONE && v.position == TITLE)
  }

  /** The if/elif chain of converter.py:181-191: one record for the current book, by type. */
  method AppendRecord(book: Book, kind: HighlightType, content: string, timestamp: int, location: int)
    modifies book.highlights, book.bookmarks, book.notes
    ensures book.Value() == Emit(old(book.Value()), kind, content, timestamp, location)
  {
    if kind == HIGHLIGHT {
      book.highlights.Append(Highlight(content, timestamp, location));
    } else if kind == BOOKMARK {
      book.bookmarks.Append(Bookmark(location, timestamp));
    } else if kind == NOTE {
      book.notes.Append(Note(content, timestamp, location));
    }
  }

  /** The pending record goes to the current book; no other Book of the map and no title changes. */
  method AddPending(v: Locals)
    requires forall k :: k in v.bookMap && k != v.book.title ==> Disjoint(v.bookMap[k], v.book)
    modifies v.book.highlights, v.book.bookmarks, v.book.notes
    ensures v.book.Value() == Emit(old(v.book.Value()), v.kind, Join(v.contents, " "), v.timestamp, v.location)
    ensures forall k :: k in v.bookMap && k != v.book.title ==>
      unchanged(v.bookMap[k], v.bookMap[k].highlights, v.bookMap[k].bookmarks, v.bookMap[k].notes)
    ensures unchanged(v.book) && unchanged(v.bookMap.Values)
  {
    AppendRecord(v.book, v.kind, Join(v.contents, " "), v.timestamp, v.location);
  }

  /** Titles that did not change keep the Books titled. */
  twostate lemma TitledKept(v: Locals)
    requires old(Titled(v)) && unchanged(v.book) && unchanged(v.bookMap.Values)
    ensures Titled(v)
  {
  }

  /** Storing the current book changes the values of the map only under its title, when no other Book changed. */
  twostate lemma SnapshotStore(v: Locals)
    requires forall k :: k in v.bookMap && k != v.book.title ==>
      unchanged(v.bookMap[k], v.bookMap[k].highlights, v.bookMap[k].bookmarks, v.bookMap[k].notes)
    ensures Snapshot(v.bookMap[v.book.title := v.book]) == old(Snapshot(v.bookMap))[v.book.title := v.book.Value()]
  {
    forall k | k in v.bookMap && k != v.book.title
      ensures v.bookMap[k].Value() == old(v.bookMap[k].Value())
    {
      ValueUnchanged(v.bookMap[k]);
    }
  }

  /** A Book none of whose objects changed has the value it had. */
  twostate lemma ValueUnchanged(b: Book)
    requires unchanged(b, b.highlights, b.bookmarks, b.notes)
    ensures b.Value() == old(b.Value())
  {
  }

  /** Storing the current book keeps every Book the initial one or one the parser made. */
  lemma StoreKeepsOwned(owned: set<object>, initial: Book, v: Locals, v': Locals)
    requires Owned(owned, initial, v)
    requires v'.book == v.book && v'.kind == v.kind && v'.position == TITLE
    requires v'.bookMap == v.bookMap[v.book.title := v.book]
    ensures Owned(owned, initial, v')
  {
  }

  /** Storing the current book under its title keeps the Books titled and distinct. */
  lemma StoreKeepsSeparated(v: Locals)
    requires Titled(v) && Distinct(v)
    ensures var v' := v.(bookMap := v.bookMap[v.book.title := v.book]);
      Titled(v') && Distinct(v')
  {
    var m := v.bookMap[v.book.title := v.book];
    forall k1, k2 | k1 in m && k2 in m && k1 != k2
      ensures Disjoint(m[k1], m[k2])
    {
      if k1 == v.book.title {
        assert v.bookMap[k2].title == k2;
      } else if k2 == v.book.title {
        assert v.bookMap[k1].title == k1;
      }
    }
  }

  /**
   * The delimiter branch (converter.py:179-193): the pending record goes to
   * the current book, which is then stored under its title, and the
   * position goes back to TITLE.
   */
  method Delimit(ghost s: ParseState, v: Locals, initial: Book, ghost owned: set<object>) returns (v': Locals)
    requires s == Abstract(v) && Titled(v) && Distinct(v) && Owned(owned, initial, v)
    modifies owned
    ensures Abstract(v') == DelimiterStep(s)
    ensures Titled(v') && Distinct(v') && Owned(owned, initial, v')
    ensures v' == v.(order := if v.book.title in v.bookMap then v.order else v.order + [v.book.title],
                     bookMap := v.bookMap[v.book.title := v.book], position := TITLE)
  {
    EmitOneRecord(s.book, s.kind, Join(s.contents, " "), s.timestamp, s.location);
    var book := v.book;
    // The initial `Book()` is not the parser's to change; it is current only while the type is NONE,
    // when the chain appends nothing.
    if v.kind != NONE {
      AddPending(v);
      TitledKept(v);
    }
    SnapshotStore(v);
    var order := if book.title in v.bookMap then v.order else v.order + [book.title];
    v' := v.(order := order, bookMap := v.bookMap[book.title := book], position := TITLE);
    StoreKeepsSeparated(v);
    StoreKeepsOwned(owned, initial, v, v');
  }

  /** Once a prefix of the lines makes the parse fail, the whole parse fails with that error. */
  lemma RunFailureIsFinal(s: ParseState, lines: seq<string>, i: nat, parseTime: TimeParser)
    requires i <= |lines|
    requires Run(s, lines[..i], parseTime).Failure?
    ensures Run(s, lines, parseTime) == Run(s, lines[..i], parseTime)
  {
    RunAppend(s, lines[..i], lines[i..], parseTime);
    assert lines[..i] + lines[i..] == lines;
  }

  /** One more line is one more `Step`. */
  lemma RunOneMore(s: ParseState, lines: seq<string>, i: nat, parseTime: TimeParser)
    requires i < |lines|
    requires Run(s, lines[..i], parseTime).Success?
    ensures Run(s, lines[..i + 1], parseTime) == Step(Run(s, lines[..i], parseTime).value, lines[i], parseTime)
  {
    assert lines[..i + 1][..i] == lines[..i];
  }

  /** A map none of whose Books changed has the values it had. */
  twostate lemma SnapshotKept(m: map<string, Book>)
    requires forall k :: k in m ==> unchanged(m[k], m[k].highlights, m[k].bookmarks, m[k].notes)
    ensures Snapshot(m) == old(Snapshot(m))
  {
    forall k | k in m
      ensures m[k].Value() == old(m[k].Value())
    {
      ValueUnchanged(m[k]);
    }
  }

  /** `Book(highlights=[], bookmarks=[], notes=[])`: a Book with an empty title and three new lists. */
  method NewBook(ghost m: map<string, Book>) returns (b: Book)
    ensures fresh(b) && fresh(b.highlights) && fresh(b.bookmarks) && fresh(b.notes)
    ensures b.Value() == EmptyBook("")
    ensures b !in m.Values && forall k :: k in m ==> Disjoint(m[k], b)
  {
    var highlights := new RecordList<Highlight>.Empty();
    var bookmarks := new RecordList<Bookmark>.Empty();
    var notes := new RecordList<Note>.Empty();
    b := new Book("", highlights, bookmarks, notes);
  }

  /**
   * The TITLE branch (converter.py:194-200): the Book stored under `line`,
   * or a new Book with new empty lists, takes the title `line`.
   */
  method Retitle(ghost s: ParseState, line: string, v: Locals, initial: Book, ghost owned: set<object>)
    returns (v': Locals, ghost owned': set<object>)
    requires s == Abstract(v) && Titled(v) && Distinct(v) && Owned(owned, initial, v)
    requires initial.title == "" && line != ""
    modifies owned
    ensures Abstract(v') == s.(contents := [], book := (if line in s.bookMap then s.bookMap[line] else EmptyBook("")).(title := line), position := INFO)
    ensures Titled(v') && Distinct(v') && Owned(owned', initial, v')
    ensures owned <= owned' && forall o :: o in owned' && o !in owned ==> fresh(o)
    ensures line in v.bookMap ==> v'.book == v.bookMap[line]
  {
    var newBook := NewBook(v.bookMap);
    var book: Book;
    if line in v.bookMap {
      book := v.bookMap[line];
      owned' := owned;
      SwitchKeepsDistinct(v, line);
    } else {
      book := newBook;
      owned' := owned + {book, book.highlights, book.bookmarks, book.notes};
    }
    Entitle(book, line, v.bookMap);
    v' := v.(book := book, contents := [], position := INFO);
    SnapshotKept(v.bookMap);
  }

  /** `book.title = line` (converter.py:199): a Book stored under `line` already has that title, so no stored value changes. */
  method Entitle(book: Book, line: string, ghost m: map<string, Book>)
    requires line in m ==> m[line] == book
    requires line !in m ==> book !in m.Values
    requires forall k :: k in m ==> m[k].title == k
    modifies book
    ensures book.Value() == old(book.Value()).(title := line)
    ensures forall k :: k in m ==> unchanged(m[k], m[k].highlights, m[k].bookmarks, m[k].notes)
  {
    book.title := line;
  }

  /** Making a stored Book the current one keeps the Books distinct. */
  lemma SwitchKeepsDistinct(v: Locals, line: string)
    requires Distinct(v) && line in v.bookMap
    ensures Distinct(v.(book := v.bookMap[line]))
  {
  }

  /** What one line does, as the pure parser states it: the error it raises, or the state it leaves. */
  ghost function Outcome(error: Option<ParseError>, v: Locals): Result<ParseState, ParseError>
    reads v.book, v.book.highlights, v.book.bookmarks, v.book.notes
    reads v.bookMap.Values, MapLists(v.bookMap)
  {
    if error.Some? then Failure(error.value) else Success(Abstract(v))
  }

  /** A line read in INFO position is read by `InfoStep`. */
  lemma InfoLineStep(s: ParseState, raw: string, parseTime: TimeParser)
    requires s.position == INFO && Clean(raw) != "" && Clean(raw) != Delimiter
    ensures Step(s, raw, parseTime) == InfoStep(s, Clean(raw), parseTime)
  {
  }

  /** The INFO branch (converter.py:201-215): location, then timestamp, then type; the first of the two lookups to fail raises. */
  method ReadInfo(ghost s: ParseState, line: string, parseTime: TimeParser, v: Locals) returns (error: Option<ParseError>, v': Locals)
    requires s == Abstract(v)
    ensures InfoStep(s, line, parseTime) == Outcome(error, v')
    ensures error.None? ==> v' == v.(location := v'.location, timestamp := v'.timestamp, kind := v'.kind, position := CONTENT)
  {
    v' := v;
    var found := ParseLocation(line);
    if found.None? {
      return Some(NoLocationMatch(line)), v;
    }
    var text := PartitionTail(line, AddedOn);
    var time := parseTime(text);
    if time.None? {
      return Some(BadTimestamp(text)), v;
    }
    error := None;
    v' := v.(location := found.value, timestamp := time.value, kind := Classify(line, v.kind), position := CONTENT);
  }

  /**
   * One iteration of `for line in lines` (converter.py:174-218): the line
   * is cleaned, then a blank line is skipped, a delimiter stores the current
   * record, and any other line is read by position. `owned` is the set of
   * objects the parser made so far; they are the only ones it changes.
   */
  method ParseLine(ghost s: ParseState, raw: string, parseTime: TimeParser, initial: Book, ghost owned: set<object>, v: Locals)
    returns (error: Option<ParseError>, v': Locals, ghost owned': set<object>)
    requires s == Abstract(v) && Titled(v) && Distinct(v) && Owned(owned, initial, v)
    requires initial !in owned && initial.title == ""
    modifies owned
    ensures owned <= owned' && forall o :: o in owned' && o !in owned ==> fresh(o)
    ensures Step(s, raw, parseTime) == Outcome(error, v')
    ensures error.None? ==> Titled(v') && Distinct(v') && Owned(owned', initial, v')
  {
    owned' := owned;
    error := None;
    var line := Clean(raw);
    if line == "" {
      BlankLineIsSkipped(s, raw, parseTime);
      v' := v;
    } else if line == Delimiter {
      DelimiterLine(s, raw, parseTime);
      v' := Delimit(s, v, initial, owned);
    } else if v.position == TITLE {
      v', owned' := Retitle(s, line, v, initial, owned);
    } else if v.position == INFO {
      InfoLineStep(s, raw, parseTime);
      error, v' := ReadInfo(s, line, parseTime, v);
    } else {
      ContentLine(s, raw, parseTime);
      v' := v.(contents := v.contents + [line]);
    }
  }

  /**
   * The `for line in lines` loop of converter.py:173-218, from the state of
   * converter.py:166-172 with `initial` as the current book. It changes only
   * Books and lists it makes itself.
   */
  method ParseLines(lines: seq<string>, parseTime: TimeParser, initial: Book) returns (error: Option<ParseError>, v: Locals)
    requires initial.title == ""
    ensures match Parse(initial.Value(), lines, parseTime)
      case Failure(e) => error == Some(e)
      case Success(found) =>
        && error == None
        && (forall k :: k in v.order ==> k in v.bookMap)
        && Collect(v.order, Snapshot(v.bookMap)) == found
  {
    ghost var start := initial.Value();
    v := Locals(TITLE, initial, NONE, [], 0, 0, [], map[]);
    ghost var owned: set<object> := {};
    for i := 0 to |lines|
      invariant Run(Initial(start), lines[..i], parseTime) == Success(Abstract(v))
      invariant Titled(v) && Distinct(v) && Owned(owned, initial, v)
      invariant forall o :: o in owned ==> fresh(o)
      invariant initial !in owned
    {
      RunOneMore(Initial(start), lines, i, parseTime);
      var failed;
      failed, v, owned := ParseLine(Abstract(v), lines[i], parseTime, initial, owned, v);
      if failed.Some? {
        RunFailureIsFinal(Initial(start), lines, i + 1, parseTime);
        return failed, v;
      }
    }
    assert lines[..|lines|] == lines;
    RunKeepsWellFormed(Initial(start), lines, parseTime);
    error := None;
  }

  /** Books none of whose objects changed have the values they had. */
  twostate lemma ValuesKept(bs: seq<Book>)
    requires forall i :: 0 <= i < |bs| ==> unchanged(bs[i], bs[i].highlights, bs[i].bookmarks, bs[i].notes)
    ensures Values(bs) == old(Values(bs))
  {
    forall i | 0 <= i < |bs|
      ensures bs[i].Value() == old(bs[i].Value())
    {
      ValueUnchanged(bs[i]);
    }
  }

  /** The values of the Books `Collect` lists are what it lists from the values of the map. */
  lemma {:induction false} ValuesCollect(order: seq<string>, m: map<string, Book>)
    requires forall k :: k in order ==> k in m
    ensures Values(Collect(order, m)) == Collect(order, Snapshot(m))
  {
    if order != [] {
      ValuesCollect(order[..|order| - 1], m);
      ValuesAppend(Collect(order[..|order| - 1], m), [m[order[|order| - 1]]]);
    }
  }

  // ---- outputHighlight ----------------------------------------------------

  /** `for x in xs: write(f(x))`: what the loop hands over, after what was handed over before. */
  method WriteEach<A, T>(before: seq<T>, f: A -> T, xs: seq<A>) returns (written: seq<T>)
    ensures written == before + Map(f, xs)
  {
    written := before;
    for i := 0 to |xs|
      invariant written == before + Map(f, xs[..i])
    {
      MapPrefix(f, xs, i);
      written := written + [f(xs[i])];
    }
    assert xs[..|xs|] == xs;
  }

  /** The rows `outputHighlight` hands to `csv.writer` for one Book, one loop per list (converter.py:233-242). */
  method CsvWrites(book: Book) returns (rows: seq<Row>)
    ensures rows == CsvRows(book.Value())
  {
    rows := WriteEach([Header], HighlightRow, book.highlights.items);
    rows := WriteEach(rows, NoteRow, book.notes.items);
    rows := WriteEach(rows, BookmarkRow, book.bookmarks.items);
  }

  /** The strings `outputHighlight` writes to the text report of one Book, in order (converter.py:246-255). */
  method ReportWrites(book: Book) returns (writes: seq<string>)
    ensures writes == ReportLines(book.Value())
  {
    writes := WriteEach([TitleHeading, HighlightsHeading], HighlightLine, book.highlights.items);
    writes := WriteEach(writes + [NotesHeading], NoteLine, book.notes.items);
    writes := WriteEach(writes + [BookmarksHeading], BookmarkLine, book.bookmarks.items);
  }

  // ---- getHighlights --------------------------------------------------------

  /** `HighlightInput` (io_converter.py:4-9): which sources to read highlights from. */
  datatype HighlightInput = NoInput | ClippingsInput | KindleHtmlInput | AppleBookInput | AllInputs

  /** The extractor methods of Converter. */
  datatype Extractor = FromClippings | FromKindleHtml | FromAppleBook

  /** The extractors `getHighlights` calls for a choice, in the order it calls them (converter.py:36-44). */
  function Extractors(input: HighlightInput): (r: seq<Extractor>)
    ensures FromClippings in r <==> input == ClippingsInput || input == AllInputs
    ensures FromKindleHtml in r <==> input == KindleHtmlInput || input == AllInputs
    ensures FromAppleBook in r <==> input == AppleBookInput || input == AllInputs
  {
    (if input == AllInputs || input == ClippingsInput then [FromClippings] else [])
      + (if input == AllInputs || input == KindleHtmlInput then [FromKindleHtml] else [])
      + (if input == AllInputs || input == AppleBookInput then [FromAppleBook] else [])
  }

  /**
   * `all` runs every extractor once, clippings first, then Kindle HTML, then
   * Apple Books; `none` runs nothing; any other choice runs its own extractor
   * alone.
   */
  lemma ExtractorsRun(input: HighlightInput)
    ensures input == AllInputs ==> Extractors(input) == [FromClippings, FromKindleHtml, FromAppleBook]
    ensures input == NoInput ==> Extractors(input) == []
    ensures input == ClippingsInput ==> Extractors(input) == [FromClippings]
    ensures input == KindleHtmlInput ==> Extractors(input) == [FromKindleHtml]
    ensures input == AppleBookInput ==> Extractors(input) == [FromAppleBook]
    ensures |Extractors(input)| <= 3
  {
  }

  class Converter {
    /** `self.books`: the list of Books the extractors append to, shared with whoever passed it in. */
    var books: RecordList<Book>

    /** `Converter(books)`: the list is stored, not copied (converter.py:29-30). */
    constructor (books: RecordList<Book>)
      ensures this.books == books
    {
      this.books := books;
    }

    /**
     * `for book in book_map.values(): self.books.append(book)`
     * (converter.py:219-221): the Books themselves are appended, in
     * insertion order, and keep their values.
     */
    method AddBooks(order: seq<string>, bookMap: map<string, Book>)
      requires forall k :: k in order ==> k in bookMap
      modifies books
      ensures books.items == old(books.items) + Collect(order, bookMap)
      ensures Values(books.items) == old(Values(books.items)) + Collect(order, old(Snapshot(bookMap)))
    {
      for j := 0 to |order|
        invariant books.items == old(books.items) + Collect(order[..j], bookMap)
      {
        assert order[..j + 1][..j] == order[..j];
        books.Append(bookMap[order[j]]);
      }
      assert order[..|order|] == order;
      SnapshotKept(bookMap);
      ValuesKept(old(books.items));
      ValuesCollect(order, bookMap);
      ValuesAppend(old(books.items), Collect(order, bookMap));
    }

    /**
     * `getHighlightFromClippings` (converter.py:155-221) over the lines of
     * `My Clippings.txt`. `defaults` holds the shared default lists of
     * `Book()`, which the initial book refers to. When the parse fails the
     * source raises before touching `self.books`; otherwise the Books of
     * `book_map` are appended in insertion order.
     */
    method GetHighlightFromClippings(lines: seq<string>, parseTime: TimeParser, defaults: BookDefaults)
      returns (error: Option<ParseError>)
      modifies books
      ensures var start := BookValue("", defaults.highlights.items, defaults.bookmarks.items, defaults.notes.items);
        match Parse(start, lines, parseTime)
        case Failure(e) => error == Some(e) && books.items == old(books.items)
        case Success(found) =>
          && error == None
          && old(books.items) <= books.items
          && Values(books.items) == old(Values(books.items)) + found
    {
      var initial := new Book.WithDefaults(defaults);
      var v;
      error, v := ParseLines(lines, parseTime, initial);
      if error.Some? {
        return;
      }
      ValuesKept(books.items);
      AddBooks(v.order, v.bookMap);
    }

    /** `outputHighlight` (converter.py:223-255): for each Book in turn, its CSV file and then its text report. */
    method OutputHighlight() returns (files: seq<OutputFile>)
      ensures files == Outputs(Values(books.items))
    {
      ghost var vs := Values(books.items);
      files := [];
      for j := 0 to |books.items|
        invariant files == Outputs(vs[..j])
      {
        var book := books.items[j];
        var rows := CsvWrites(book);
        var writes := ReportWrites(book);
        FlattenPrefix(BookFiles, vs, j);
        files := files + [CsvFile(OutputDir + "/" + book.title + ".csv", rows),
          TextFile(OutputDir + "/" + book.title + ".txt", writes)];
      }
      assert vs[..|vs|] == vs;
    }

    /**
     * `getHighlights` (converter.py:36-44): the extractors chosen by `input`
     * are called in source order, and each call is recorded in `calls`. A
     * parse error raised by the clippings extractor ends the dispatch. Only
     * the clippings extractor is modelled; the other two calls change
     * nothing here.
     */
    method GetHighlights(input: HighlightInput, lines: seq<string>, parseTime: TimeParser, defaults: BookDefaults)
      returns (calls: seq<Extractor>, error: Option<ParseError>)
      modifies books
      ensures error.None? ==> calls == Extractors(input)
      ensures error.Some? ==> calls == [FromClippings] && FromClippings in Extractors(input)
      ensures FromClippings !in Extractors(input) ==> error == None && books.items == old(books.items)
      ensures FromClippings in Extractors(input) ==>
        var start := BookValue("", old(defaults.highlights.items), old(defaults.bookmarks.items), old(defaults.notes.items));
        match Parse(start, lines, parseTime)
        case Failure(e) => error == Some(e) && books.items == old(books.items)
        case Success(found) =>
          && error == None
          && old(books.items) <= books.items
          && Values(books.items) == old(Values(books.items)) + found
    {
      calls := [];
      error := None;
      if input == AllInputs || input == ClippingsInput {
        calls := calls + [FromClippings];
        error := GetHighlightFromClippings(lines, parseTime, defaults);
      }
      // A raised parse error propagates out of getHighlights: no later extractor is called.
      if error.None? && (input == AllInputs || input == KindleHtmlInput) {
        calls := calls + [FromKindleHtml];
      }
      if error.None? && (input == AllInputs || input == AppleBookInput) {
        calls := calls + [FromAppleBook];
      }
    }
  }
}
