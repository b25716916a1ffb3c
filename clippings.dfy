/**
 * The clippings parser of converter.py:155-221 as a function of its
 * input: a state machine over the lines of `My Clippings.txt`, one `Step`
 * per line, and `Parse`, which runs it over the whole file and lists the
 * Books of `book_map` in insertion order. `Converter.GetHighlightFromClippings`
 * (converter.dfy) is the loop the source runs, proved to compute `Parse`.
 *
 * The conversion of the "Added on" text to epoch seconds depends on the
 * locale and the local time zone; it is the parameter `parseTime`, and
 * `None` from it stands for the `ValueError` that `strptime` raises.
 */
module Clippings {

  import opened Wrappers
  import opened Text
  import opened Records

  /** `HighlightPosition` (converter.py:12-16). */
  datatype HighlightPosition = TITLE | INFO | CONTENT

  /** `HighlightType` (converter.py:19-23). */
  datatype HighlightType = NONE | HIGHLIGHT | BOOKMARK | NOTE

  /** The local variables of the parser loop (converter.py:166-172), as values. */
  datatype ParseState = ParseState(
    position: HighlightPosition,
    book: BookValue,                  // `book`
    kind: HighlightType,              // `type`
    contents: seq<string>,
    location: int,
    timestamp: int,
    order: seq<string>,               // the keys of `book_map` in insertion order
    bookMap: map<string, BookValue>)  // `book_map`

  /** What makes the parse raise: `match` is None (`AttributeError`) or `strptime` rejects the text (`ValueError`). */
  datatype ParseError = NoLocationMatch(line: string) | BadTimestamp(text: string)

  type TimeParser = string -> Option<int>

  /** The record separator (converter.py:179). */
  const Delimiter := "=========="

  const HighlightPrefix := "- Your Highlight"
  const NotePrefix := "- Your Note"
  const BookmarkPrefix := "- Your Bookmark"
  const AddedOn := "Added on "

  /**
   * The state before the first line (converter.py:166-172). `start` is the
   * value of `Book()`: an empty title and whatever the shared default lists
   * hold at that moment.
   */
  function Initial(start: BookValue): ParseState
  {
    ParseState(TITLE, start, NONE, [], 0, 0, [], map[])
  }

  /** The type an INFO line gives, by its prefix; any other line keeps the previous type (converter.py:209-214). */
  function Classify(line: string, previous: HighlightType): HighlightType
  {
    if StartsWith(line, HighlightPrefix) then HIGHLIGHT
    else if StartsWith(line, NotePrefix) then NOTE
    else if StartsWith(line, BookmarkPrefix) then BOOKMARK
    else previous
  }

  /** The record a delimiter appends to the current book, by type (converter.py:181-191). */
  function Emit(book: BookValue, kind: HighlightType, content: string, timestamp: int, location: int): BookValue
  {
    match kind
    case HIGHLIGHT => book.(highlights := book.highlights + [Highlight(content, timestamp, location)])
    case BOOKMARK => book.(bookmarks := book.bookmarks + [Bookmark(location, timestamp)])
    case NOTE => book.(notes := book.notes + [Note(content, timestamp, location)])
    case NONE => book
  }

  /** `book_map[title] = book`, keeping the insertion order of a Python dict. */
  function Store(order: seq<string>, bookMap: map<string, BookValue>, book: BookValue): seq<string>
  {
    if book.title in bookMap then order else order + [book.title]
  }

  /** One iteration of `for line in lines` (converter.py:173-218). */
  function Step(s: ParseState, raw: string, parseTime: TimeParser): Result<ParseState, ParseError>
  {
    var line := Clean(raw);
    if line == "" then Success(s)
    else if line == Delimiter then Success(DelimiterStep(s))
    else
      match s.position
      case TITLE =>
        var found := if line in s.bookMap then s.bookMap[line] else EmptyBook("");
        Success(s.(contents := [], book := found.(title := line), position := INFO))
      case INFO => InfoStep(s, line, parseTime)
      case CONTENT =>
        Success(s.(contents := s.contents + [line]))
  }

  /** A delimiter line (converter.py:179-193): append the pending record, store the book, back to TITLE. */
  function DelimiterStep(s: ParseState): ParseState
  {
    var book := Emit(s.book, s.kind, Join(s.contents, " "), s.timestamp, s.location);
    s.(book := book, order := Store(s.order, s.bookMap, book),
       bookMap := s.bookMap[book.title := book], position := TITLE)
  }

  /** An INFO line (converter.py:201-215): location, then timestamp, then type. */
  function InfoStep(s: ParseState, line: string, parseTime: TimeParser): Result<ParseState, ParseError>
  {
    match ParseLocation(line)
    case None => Failure(NoLocationMatch(line))
    case Some(location) =>
      var text := PartitionTail(line, AddedOn);
      match parseTime(text)
      case None => Failure(BadTimestamp(text))
      case Some(timestamp) =>
        Success(s.(location := location, timestamp := timestamp,
                   kind := Classify(line, s.kind), position := CONTENT))
  }

  /** The loop over `lines`; the first failing line aborts the whole parse. */
  function Run(s: ParseState, lines: seq<string>, parseTime: TimeParser): Result<ParseState, ParseError>
    decreases |lines|
  {
    if lines == [] then Success(s)
    else
      match Run(s, lines[..|lines| - 1], parseTime)
      case Failure(e) => Failure(e)
      case Success(t) => Step(t, lines[|lines| - 1], parseTime)
  }

  /** `book_map.values()`, in insertion order (converter.py:219-221). */
  function Collect<V>(order: seq<string>, bookMap: map<string, V>): (books: seq<V>)
    requires forall k :: k in order ==> k in bookMap
    ensures |books| == |order|
    ensures forall i :: 0 <= i < |order| ==> books[i] == bookMap[order[i]]
  {
    if order == [] then []
    else Collect(order[..|order| - 1], bookMap) + [bookMap[order[|order| - 1]]]
  }

  /** The parser from its first line to the books it hands over. */
  function Parse(start: BookValue, lines: seq<string>, parseTime: TimeParser): Result<seq<BookValue>, ParseError>
  {
    match Run(Initial(start), lines, parseTime)
    case Failure(e) => Failure(e)
    case Success(s) =>
      RunKeepsWellFormed(Initial(start), lines, parseTime);
      Success(Collect(s.order, s.bookMap))
  }

  predicate NoDuplicates(xs: seq<string>)
  {
    forall i, j :: 0 <= i < j < |xs| ==> xs[i] != xs[j]
  }

  /**
   * What every reachable state satisfies: each Book is stored under its own
   * title, `order` lists each key once, and a current book whose title is a
   * key is the stored Book itself.
   */
  ghost predicate WellFormed(s: ParseState)
  {
    && (forall k :: k in s.bookMap ==> s.bookMap[k].title == k)
    && (forall k :: k in s.order <==> k in s.bookMap)
    && NoDuplicates(s.order)
    && (s.book.title in s.bookMap ==> s.bookMap[s.book.title] == s.book)
  }

  lemma StepKeepsWellFormed(s: ParseState, raw: string, parseTime: TimeParser)
    requires WellFormed(s)
    ensures Step(s, raw, parseTime).Success? ==> WellFormed(Step(s, raw, parseTime).value)
  {
    var line := Clean(raw);
    if line != "" && line == Delimiter {
      DelimiterLine(s, raw, parseTime);
      DelimiterKeepsWellFormed(s);
    }
  }

  lemma DelimiterKeepsWellFormed(s: ParseState)
    requires WellFormed(s)
    ensures WellFormed(DelimiterStep(s))
  {
    var t := DelimiterStep(s);
    var title := s.book.title;
    DelimiterEffect(s);
    if title !in s.bookMap {
      assert t.order == s.order + [title];
      forall i, j | 0 <= i < j < |t.order| ensures t.order[i] != t.order[j] {
        if j == |s.order| {
          assert t.order[i] == s.order[i];
          assert s.order[i] in s.bookMap;
        }
      }
    } else {
      assert t.order == s.order;
    }
  }

  lemma {:induction false} RunKeepsWellFormed(s: ParseState, lines: seq<string>, parseTime: TimeParser)
    requires WellFormed(s)
    ensures Run(s, lines, parseTime).Success? ==> WellFormed(Run(s, lines, parseTime).value)
    decreases |lines|
  {
    if lines != [] {
      RunKeepsWellFormed(s, lines[..|lines| - 1], parseTime);
      match Run(s, lines[..|lines| - 1], parseTime)
      case Failure(_) =>
      case Success(t) => StepKeepsWellFormed(t, lines[|lines| - 1], parseTime);
    }
  }

  lemma InitialIsWellFormed(start: BookValue)
    ensures WellFormed(Initial(start))
  {
  }

  /** Running over `a + b` is running over `a`, then over `b` from where `a` left off. */
  lemma {:induction false} RunAppend(s: ParseState, a: seq<string>, b: seq<string>, parseTime: TimeParser)
    ensures Run(s, a + b, parseTime) ==
      match Run(s, a, parseTime)
      case Failure(e) => Failure(e)
      case Success(t) => Run(t, b, parseTime)
    decreases |b|
  {
    if b == [] {
      assert a + b == a;
    } else {
      assert (a + b)[..|a + b| - 1] == a + b[..|b| - 1];
      RunAppend(s, a, b[..|b| - 1], parseTime);
    }
  }

  // ---- Per-line behaviour ----------------------------------------------

  /** A line that is empty once cleaned leaves every part of the state as it was, in any position (converter.py:175-178). */
  lemma BlankLineIsSkipped(s: ParseState, raw: string, parseTime: TimeParser)
    requires Clean(raw) == ""
    ensures Step(s, raw, parseTime) == Success(s)
  {
  }

  /** Blank lines anywhere in the file change nothing about the parse, its errors included. */
  lemma BlankLinesAnywhere(s: ParseState, before: seq<string>, blank: string, after: seq<string>, parseTime: TimeParser)
    requires Clean(blank) == ""
    ensures Run(s, before + [blank] + after, parseTime) == Run(s, before + after, parseTime)
  {
    RunAppend(s, before + [blank], after, parseTime);
    RunAppend(s, before, [blank], parseTime);
    RunAppend(s, before, after, parseTime);
    assert [blank][..0] == [];
  }

  /** The lines that are not blank once cleaned, in file order. */
  function NonBlank(lines: seq<string>): (r: seq<string>)
    ensures |r| <= |lines|
    ensures forall i :: 0 <= i < |r| ==> Clean(r[i]) != "" && r[i] in lines
    decreases |lines|
  {
    if lines == [] then []
    else
      var last := lines[|lines| - 1];
      NonBlank(lines[..|lines| - 1]) + if Clean(last) == "" then [] else [last]
  }

  /** A run over the lines is the run over their non-blank lines: every blank line is dropped (converter.py:177-178). */
  lemma {:induction false} BlanksDropped(s: ParseState, lines: seq<string>, parseTime: TimeParser)
    ensures Run(s, lines, parseTime) == Run(s, NonBlank(lines), parseTime)
    decreases |lines|
  {
    if lines != [] {
      var front, last := lines[..|lines| - 1], lines[|lines| - 1];
      assert lines == front + [last];
      BlanksDropped(s, front, parseTime);
      if Clean(last) == "" {
        assert NonBlank(lines) == NonBlank(front);
        BlankLast(s, front, last, parseTime);
      } else {
        assert NonBlank(lines) == NonBlank(front) + [last];
        SameLast(s, front, NonBlank(front), last, parseTime);
      }
    }
  }

  /** A blank last line leaves the run as it was. */
  lemma BlankLast(s: ParseState, front: seq<string>, last: string, parseTime: TimeParser)
    requires Clean(last) == ""
    ensures Run(s, front + [last], parseTime) == Run(s, front, parseTime)
  {
    RunAppend(s, front, [last], parseTime);
    assert [last][..0] == [];
    match Run(s, front, parseTime)
    case Failure(_) =>
    case Success(u) => BlankLineIsSkipped(u, last, parseTime);
  }

  /** Runs that agree still agree after one more line. */
  lemma SameLast(s: ParseState, a: seq<string>, b: seq<string>, last: string, parseTime: TimeParser)
    requires Run(s, a, parseTime) == Run(s, b, parseTime)
    ensures Run(s, a + [last], parseTime) == Run(s, b + [last], parseTime)
  {
    RunAppend(s, a, [last], parseTime);
    RunAppend(s, b, [last], parseTime);
  }

  /** A line is dispatched by its cleaned text, so a line and its cleaned form step alike (converter.py:175-176). */
  lemma StepClean(s: ParseState, raw: string, parseTime: TimeParser)
    ensures Step(s, raw, parseTime) == Step(s, Clean(raw), parseTime)
  {
    CleanProperties(raw, []);
  }

  /** Two files whose lines clean to the same texts, line by line, run alike, errors included. */
  lemma {:induction false} RunClean(s: ParseState, a: seq<string>, b: seq<string>, parseTime: TimeParser)
    requires |a| == |b| && forall i :: 0 <= i < |a| ==> Clean(a[i]) == Clean(b[i])
    ensures Run(s, a, parseTime) == Run(s, b, parseTime)
    decreases |a|
  {
    if a != [] {
      var n := |a| - 1;
      RunClean(s, a[..n], b[..n], parseTime);
      match Run(s, a[..n], parseTime)
      case Failure(_) =>
      case Success(u) =>
        StepClean(u, a[n], parseTime);
        StepClean(u, b[n], parseTime);
    }
  }

  /** Two files with the same non-blank lines parse alike, errors included. */
  lemma SameNonBlankLines(start: BookValue, a: seq<string>, b: seq<string>, parseTime: TimeParser)
    requires NonBlank(a) == NonBlank(b)
    ensures Parse(start, a, parseTime) == Parse(start, b, parseTime)
  {
    BlanksDropped(Initial(start), a, parseTime);
    BlanksDropped(Initial(start), b, parseTime);
  }

  /**
   * The delimiter is recognised before the position is looked at: in every
   * position it appends the pending record to the current book, stores the
   * book under its title and goes back to TITLE. It keeps `type`,
   * `contents`, location and timestamp, so a second delimiter in a row
   * appends the same record again (converter.py:179-193).
   */
  lemma DelimiterLine(s: ParseState, raw: string, parseTime: TimeParser)
    requires Clean(raw) == Delimiter
    ensures Step(s, raw, parseTime) == Success(DelimiterStep(s))
  {
  }

  /**
   * What a delimiter does to the state (converter.py:181-193). The title gets
   * its key, and its place in the key order, the first time a delimiter
   * stores a Book under it, whether or not a record was appended.
   */
  lemma DelimiterEffect(s: ParseState)
    ensures var t := DelimiterStep(s);
      && t.position == TITLE
      && t.book == Emit(s.book, s.kind, Join(s.contents, " "), s.timestamp, s.location)
      && t.bookMap.Keys == s.bookMap.Keys + {s.book.title}
      && t.bookMap[s.book.title] == t.book
      && (forall k :: k in s.bookMap && k != s.book.title ==> t.bookMap[k] == s.bookMap[k])
      && t.kind == s.kind && t.contents == s.contents
      && t.location == s.location && t.timestamp == s.timestamp
      && t.order == (if s.book.title in s.bookMap then s.order else s.order + [s.book.title])
  {
    EmitOneRecord(s.book, s.kind, Join(s.contents, " "), s.timestamp, s.location);
  }

  /**
   * A delimiter appends exactly one record, to the list its type names, and
   * leaves the other two lists as they were; type NONE appends nothing.
   * Highlight and Note carry the content, a Bookmark only location and time.
   */
  lemma EmitOneRecord(book: BookValue, kind: HighlightType, content: string, timestamp: int, location: int)
    ensures var b := Emit(book, kind, content, timestamp, location);
      && b.title == book.title
      && (b.highlights == book.highlights + [Highlight(content, timestamp, location)] || b.highlights == book.highlights)
      && (b.bookmarks == book.bookmarks + [Bookmark(location, timestamp)] || b.bookmarks == book.bookmarks)
      && (b.notes == book.notes + [Note(content, timestamp, location)] || b.notes == book.notes)
      && (|b.highlights| + |b.bookmarks| + |b.notes| == |book.highlights| + |book.bookmarks| + |book.notes| + if kind == NONE then 0 else 1)
      && (|b.highlights| > |book.highlights| <==> kind == HIGHLIGHT)
      && (|b.bookmarks| > |book.bookmarks| <==> kind == BOOKMARK)
      && (|b.notes| > |book.notes| <==> kind == NOTE)
  {
  }

  /**
   * A TITLE line empties the pending contents and makes the current book the
   * one already stored under that title, or a new empty one, then moves to
   * INFO; so the records of a title seen twice accumulate in one Book
   * (converter.py:194-200).
   */
  lemma TitleLine(s: ParseState, raw: string, parseTime: TimeParser)
    requires WellFormed(s) && s.position == TITLE
    requires Clean(raw) != "" && Clean(raw) != Delimiter
    ensures Step(s, raw, parseTime).Success?
    ensures var t := Step(s, raw, parseTime).value;
      && t.position == INFO && t.contents == []
      && t.book == (if Clean(raw) in s.bookMap then s.bookMap[Clean(raw)] else EmptyBook(Clean(raw)))
      && t.bookMap == s.bookMap && t.order == s.order && t.kind == s.kind
      && t.location == s.location && t.timestamp == s.timestamp
  {
  }

  /**
   * An INFO line fails exactly when it has no `on Location <digits>` or its
   * "Added on" text is not a time; otherwise it takes the location and the
   * timestamp, classifies the record and moves to CONTENT (converter.py:201-215).
   */
  lemma InfoLine(s: ParseState, raw: string, parseTime: TimeParser)
    requires s.position == INFO
    requires Clean(raw) != "" && Clean(raw) != Delimiter
    ensures var line := Clean(raw);
      Step(s, raw, parseTime).Failure? <==>
        ParseLocation(line).None? || parseTime(PartitionTail(line, AddedOn)).None?
    ensures var line := Clean(raw);
      ParseLocation(line).None? ==> Step(s, raw, parseTime) == Failure(NoLocationMatch(line))
    ensures var line := Clean(raw);
      ParseLocation(line).Some? && parseTime(PartitionTail(line, AddedOn)).None? ==>
        Step(s, raw, parseTime) == Failure(BadTimestamp(PartitionTail(line, AddedOn)))
    ensures var line := Clean(raw);
      Step(s, raw, parseTime).Success? ==>
        var t := Step(s, raw, parseTime).value;
        && t.position == CONTENT
        && Some(t.location) == ParseLocation(line)
        && Some(t.timestamp) == parseTime(PartitionTail(line, AddedOn))
        && t.kind == Classify(line, s.kind)
        && t.book == s.book && t.bookMap == s.bookMap && t.order == s.order && t.contents == s.contents
  {
  }

  /**
   * An INFO line with a location but without `Added on ` hands the empty
   * text to the time parser (`partition` gives `''`), so it fails with
   * `BadTimestamp("")` exactly when that text does not parse
   * (converter.py:206-208).
   */
  lemma InfoLineWithoutAddedOn(s: ParseState, raw: string, parseTime: TimeParser)
    requires s.position == INFO
    requires Clean(raw) != "" && Clean(raw) != Delimiter
    requires ParseLocation(Clean(raw)).Some?
    requires forall i :: 0 <= i <= |Clean(raw)| ==> !OccursAt(Clean(raw), AddedOn, i)
    ensures Step(s, raw, parseTime).Failure? <==> parseTime("").None?
    ensures parseTime("").None? ==> Step(s, raw, parseTime) == Failure(BadTimestamp(""))
  {
    InfoLine(s, raw, parseTime);
  }

  /**
   * The type an INFO line sets: by prefix, Highlight before Note before
   * Bookmark; a line with none of the prefixes keeps the type of the
   * previous record, which is NONE before the first (converter.py:169, 209-214).
   */
  lemma ClassifyByPrefix(line: string, previous: HighlightType)
    ensures StartsWith(line, HighlightPrefix) ==> Classify(line, previous) == HIGHLIGHT
    ensures StartsWith(line, NotePrefix) ==> Classify(line, previous) == NOTE
    ensures StartsWith(line, BookmarkPrefix) ==> Classify(line, previous) == BOOKMARK
    ensures !StartsWith(line, HighlightPrefix) && !StartsWith(line, NotePrefix) && !StartsWith(line, BookmarkPrefix) ==>
      Classify(line, previous) == previous
  {
    assert HighlightPrefix[7] == 'H' && NotePrefix[7] == 'N' && BookmarkPrefix[7] == 'B';
    if StartsWith(line, NotePrefix) {
      assert line[7] == line[..|NotePrefix|][7] == 'N';
      assert !StartsWith(line, HighlightPrefix) by {
        if |HighlightPrefix| <= |line| { assert line[..|HighlightPrefix|][7] == 'N'; }
      }
    }
    if StartsWith(line, BookmarkPrefix) {
      assert line[7] == line[..|BookmarkPrefix|][7] == 'B';
      assert !StartsWith(line, HighlightPrefix) by {
        if |HighlightPrefix| <= |line| { assert line[..|HighlightPrefix|][7] == 'B'; }
      }
      assert !StartsWith(line, NotePrefix) by {
        if |NotePrefix| <= |line| { assert line[..|NotePrefix|][7] == 'B'; }
      }
    }
  }

  /** A CONTENT line is kept verbatim (after cleaning) and the position stays CONTENT (converter.py:216-218). */
  lemma ContentLine(s: ParseState, raw: string, parseTime: TimeParser)
    requires s.position == CONTENT
    requires Clean(raw) != "" && Clean(raw) != Delimiter
    ensures Step(s, raw, parseTime) == Success(s.(contents := s.contents + [Clean(raw)]))
  {
  }

  /** The parse hands over each key of `book_map` exactly once, each Book under its own title (converter.py:219-221). */
  lemma ParseListsEachTitleOnce(start: BookValue, lines: seq<string>, parseTime: TimeParser)
    requires Parse(start, lines, parseTime).Success?
    ensures var books := Parse(start, lines, parseTime).value;
      var s := Run(Initial(start), lines, parseTime).value;
      && |books| == |s.bookMap|
      && (forall i, j :: 0 <= i < j < |books| ==> books[i].title != books[j].title)
      && (forall k :: k in s.bookMap <==> exists i :: 0 <= i < |books| && books[i].title == k)
      && (forall i :: 0 <= i < |books| ==> books[i] == s.bookMap[books[i].title])
  {
    var s := Run(Initial(start), lines, parseTime).value;
    RunKeepsWellFormed(Initial(start), lines, parseTime);
    CollectTitles(s.order, s.bookMap);
  }

  lemma CollectTitles(order: seq<string>, bookMap: map<string, BookValue>)
    requires forall k :: k in order <==> k in bookMap
    requires NoDuplicates(order)
    requires forall k :: k in bookMap ==> bookMap[k].title == k
    ensures var books := Collect(order, bookMap);
      && |books| == |bookMap|
      && (forall i, j :: 0 <= i < j < |books| ==> books[i].title != books[j].title)
      && (forall k :: k in bookMap <==> exists i :: 0 <= i < |books| && books[i].title == k)
      && (forall i :: 0 <= i < |books| ==> books[i] == bookMap[books[i].title])
  {
    var books := Collect(order, bookMap);
    DistinctLength(order, bookMap.Keys);
    assert forall i :: 0 <= i < |books| ==> books[i].title == order[i];
    forall k | k in bookMap ensures exists i :: 0 <= i < |books| && books[i].title == k {
      var i :| 0 <= i < |order| && order[i] == k;
      assert books[i].title == k;
    }
  }

  /** A sequence without duplicates that lists exactly the elements of a set is as long as the set is large. */
  lemma {:induction false} DistinctLength(xs: seq<string>, keys: set<string>)
    requires NoDuplicates(xs)
    requires forall k :: k in xs <==> k in keys
    ensures |xs| == |keys|
  {
    if xs != [] {
      var last := xs[|xs| - 1];
      var init := xs[..|xs| - 1];
      assert forall i :: 0 <= i < |init| ==> init[i] == xs[i] != last;
      assert last !in init;
      forall k ensures k in init <==> k in keys - {last} {
        if k in keys - {last} {
          assert k in xs;
          var i :| 0 <= i < |xs| && xs[i] == k;
          assert i < |xs| - 1 && init[i] == k;
        }
      }
      DistinctLength(init, keys - {last});
    } else {
      assert forall k :: k !in keys;
    }
  }
}
