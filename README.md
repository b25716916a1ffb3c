# Kindle highlight converter: the clippings parser and the report writer

This project models the core of a small Python tool that converts Kindle
annotations into per-book files. It covers:

- the record classes of `book.py`: `Highlight`, `Bookmark`, `Note` and `Book`,
  including the three default lists that every `Book()` built without
  explicit lists shares;
- `Converter.getHighlightFromClippings`, the loop that reads the lines of
  `My Clippings.txt` as a state machine over the positions TITLE, INFO and
  CONTENT plus the `==========` delimiter, collects Books in a title-keyed
  dict and appends them to `self.books`;
- `Converter.outputHighlight`, which turns each Book into the rows of a CSV
  file and the lines of a text report;
- `Converter.getHighlights`, the dispatch from the chosen `HighlightInput`
  to the extractors it calls.

The model has two layers. The first is **pure**. Module `Clippings` gives
one `Step` per line over a `ParseState` value, `Run` over a list of lines,
and `Parse`, which lists the Books of the dict in insertion order. Module
`Report` gives `CsvRows`, `ReportLines` and `Outputs`. The properties the
code promises are proved about these functions. Module `Blocks` describes
the layout of a Kindle clippings file: one block per annotation, made of a
title line, an info line `- Your <Kind> on Location <n><span>Added on <date>`
(the span is ` | `, or `-124 | ` for a location range), content lines and
the delimiter (`Render`, `FileLines`). As `readlines()` returns them, the
lines may also end in their line break and carry byte order marks (a Kindle
export starts with one), and blank lines may sit anywhere. It proves
what the parser makes of a whole file written in that layout
(`Blocks.ParseBlocks`, `Blocks.ParseBlocksWithBlanks`): one Book per title,
in the order the titles first appear, each holding the records of its
blocks, each kind in file order.

The second layer is **imperative** and follows the source.
- `Book` is a class whose list fields are `RecordList` objects, held by
  reference.
- The parser loop (`Converter.ParseLines`, with `ParseLine` and one method
  per branch) changes those objects in place.
- The writer loops (`Converter.WriteEach`, used by `CsvWrites` and
  `ReportWrites`) hand over one row or string per record.
- `Converter.Converter` holds `self.books`.
- Each method is proved against the pure layer. The loop invariant
  `Run(Initial(start), lines[..i], parseTime) == Success(Abstract(v))` ties
  the heap to the pure state, where `Abstract` reads the current Book objects.
- The invariants `Titled`, `Distinct` and `Owned` say that:
  - each Book is stored under its own title;
  - Books under different titles share no list;
  - the parser only changes the Books and lists it created.

  The last fact is why the shared default lists of the initial `Book()`
  never receive a record.

The parser's external inputs become parameters.
- **Timestamps:** `datetime.strptime(...).timestamp()` becomes the parameter
  `parseTime: string -> Option<int>`. Its `None` stands for the
  `ValueError` that `strptime` raises.
- **Input file:** the parser gets the file as a sequence of lines.
- **Output files:** the writer produces `OutputFile` values that hold a
  path and the rows or strings written.

Some behaviours of the code are easy to miss; the model follows the code:
- **Order:** the Books come out in the insertion order of the Python dict:
  a title takes its place when a delimiter first stores a Book under it,
  whether or not a record was appended to that Book (`Clippings.DelimiterEffect`).
- **Record type:** an INFO line without a known prefix keeps the previous
  record's type (`Clippings.ClassifyByPrefix`).
- **Delimiter:** a delimiter does not reset the type or the pending
  contents. A second delimiter in a row therefore appends the same record
  again (`Clippings.DelimiterEffect`). Likewise a title line followed
  directly by a delimiter appends, to the Book of that title, a record with
  empty contents that reuses the previous type, location and timestamp
  (`Clippings.TitleLine`, `Clippings.DelimiterEffect`).
- **Errors:** a missing `on Location <digits>` or an unparsable "Added on"
  text aborts the whole parse. `self.books` is then left unchanged.
- **First line:** a delimiter before the first title stores the initial
  `Book()` under the empty title. Its lists are the shared defaults.

## Model

| member | source | states |
|---|---|---|
| Records.RecordList.Append | converter.py:185 | `list.append(x)`: the list's contents become the old contents followed by `x` |
| Records.BookDefaults.constructor | book.py:27-29 | the three default lists are created once, as new, empty, distinct objects |
| Records.Book.constructor | book.py:25-33 | a Book stores the title and the very list objects it is given, with no copy |
| Records.Book.WithDefaults | book.py:25-33 | a Book built without list arguments refers to the three shared default lists |
| Records.Book.Value | book.py:24-33 | the title and the current contents of the three lists of a Book; `Records.SharedDefaultLists` and `Converter.ValuesKept` state how it follows the lists |
| Records.RecordList.Empty | converter.py:197-198 | `[]` (and the `list()` defaults of book.py:27-29) is a new list with no items |
| Records.RecordDefaults | book.py:4-21 | the constructor defaults (`''`, 0, 0) of Highlight and Note, the (location, time) argument order of Bookmark, and that arguments are stored unchanged |
| Records.SharedDefaultLists | book.py:27-29 | two distinct Books built with default lists share them: a highlight appended through one is seen through the other |
| Text.RemoveAll | converter.py:175-176 | `str.replace(c, '')`: the result has no `c` and only characters of the input, and it is the input itself when `c` does not occur |
| Text.Clean | converter.py:175-176 | a cleaned line has no byte-order mark and no newline, and a line without either is kept as it is |
| Text.CleanProperties | converter.py:175-176 | cleaning is idempotent and distributes over concatenation |
| Text.CleanEmpty | converter.py:175-178 | a line is skipped as blank exactly when it consists of byte-order marks and newlines only |
| Text.Join | converter.py:181 | `' '.join`: no parts give `''` and one part gives that part |
| Text.JoinLength | converter.py:181 | the length of the joined content is the sum of the parts' lengths plus one separator's length per pair of neighbours |
| Text.JoinAppend | converter.py:181 | joining two non-empty lists of parts is joining each and putting one separator between the two results |
| Text.FindFrom | converter.py:205 | the least index at or after `from` where the separator occurs, or None when it occurs nowhere there |
| Text.PartitionTail | converter.py:205 | `line.partition('Added on ')[2]` is `''` when the separator does not occur |
| Text.PartitionTailAfter | converter.py:205 | the text after the first `Added on ` is exactly what follows it, when nothing earlier can start the separator |
| Text.DigitPrefix | converter.py:203 | the greedy `\d+`: the longest run of digits at the start of the text |
| Text.Decimal | converter.py:249-255 | the decimal digits of a location are digits without a leading zero (only 0 prints as `0`) and read back as the same number |
| Text.StartsWith | converter.py:209-214 | `str.startswith`; what the three prefixes make of a line is stated by `Clippings.ClassifyByPrefix` |
| Text.DigitsValue | converter.py:204 | `int()` of a run of digits; `Text.LocationRoundTrip` states that it reads back a printed location |
| Text.IntToString | converter.py:249-255 | the `{location}` of an f-string; `Text.Decimal` states the digits it prints for non-negative numbers |
| Text.SearchLocation | converter.py:203 | `re.search('on Location (\d+)')`: the leftmost index where the pattern matches, or None when it matches nowhere |
| Text.ParseLocation | converter.py:203-204 | `int(match.group(1))` fails exactly when the pattern matches nowhere in the line |
| Text.LocationRoundTrip | converter.py:203-204 | a location printed after `on Location ` is read back as the same number |
| Clippings.Initial | converter.py:166-172 | the state before the loop: TITLE, the initial `Book()`, NONE, no contents, location and timestamp 0, an empty dict; `Clippings.InitialIsWellFormed` states that it meets the parser invariant |
| Clippings.Classify | converter.py:209-214 | the if/elif chain on the three prefixes; `Clippings.ClassifyByPrefix` states its outcome |
| Clippings.Emit | converter.py:181-191 | the record the delimiter appends; `Clippings.EmitOneRecord` states which list gets which record |
| Clippings.Store | converter.py:192 | `book_map[book.title] = book` on the key order: a new key goes last, an existing key keeps its place; `Clippings.CollectTitles` and `Blocks.TitlesOnce` state what that order lists |
| Clippings.DelimiterStep | converter.py:179-193 | the delimiter branch; `Clippings.DelimiterEffect` states every field of the new state, the key order included |
| Clippings.InfoStep | converter.py:201-215 | the INFO branch, with its two errors; `Clippings.InfoLine` states its outcome |
| Clippings.Step | converter.py:173-218 | one iteration of the loop; `Clippings.BlankLineIsSkipped`, `Clippings.DelimiterLine`, `Clippings.TitleLine`, `Clippings.InfoLine` and `Clippings.ContentLine` state its branches, `Clippings.StepKeepsWellFormed` the invariant it keeps |
| Clippings.Run | converter.py:173-218 | the loop over the lines, stopping at the first error; `Clippings.RunAppend` states how runs compose, `Clippings.RunKeepsWellFormed` the invariant they keep |
| Clippings.Parse | converter.py:155-221 | the whole method: the error of the loop, or the values of `book_map` in insertion order; `Clippings.ParseListsEachTitleOnce` and `Blocks.ParseBlocks` state what it lists |
| Clippings.Collect | converter.py:219-221 | `book_map.values()` lists one value per key, in insertion order |
| Clippings.InitialIsWellFormed | converter.py:166-172 | the state before the first line satisfies the parser invariant |
| Clippings.StepKeepsWellFormed | converter.py:173-218 | each line keeps the invariant: each Book is stored under its title, the insertion order lists each key once, and a current book whose title is a key is the stored Book |
| Clippings.DelimiterKeepsWellFormed | converter.py:179-193 | storing the book on a delimiter keeps the parser invariant |
| Clippings.RunKeepsWellFormed | converter.py:173-218 | the whole loop keeps the parser invariant |
| Clippings.RunAppend | converter.py:173-218 | running over `a + b` is running over `a`, then over `b` from where `a` stopped, and a failure in `a` is final |
| Clippings.BlankLineIsSkipped | converter.py:175-178 | a line that is empty once cleaned leaves the whole state unchanged, in every position |
| Clippings.BlankLinesAnywhere | converter.py:175-178 | inserting a blank line anywhere in the file changes neither the result nor the error of the parse |
| Clippings.NonBlank | converter.py:175-178 | the lines of a file that are not blank once cleaned, in file order; every line kept is non-blank and a line of the file |
| Clippings.BlanksDropped | converter.py:173-218 | a run over any lines equals the run over their non-blank lines, errors included |
| Clippings.SameNonBlankLines | converter.py:155-221 | two files with the same non-blank lines parse to the same Books or the same error |
| Clippings.StepClean | converter.py:175-218 | a line steps exactly as its cleaned text does, so a trailing line break or a byte order mark changes nothing |
| Clippings.RunClean | converter.py:173-218 | two files whose lines clean to the same texts, line by line, run to the same state or the same error |
| Clippings.DelimiterLine | converter.py:179-193 | the delimiter is recognised before the position is looked at, in every position |
| Clippings.DelimiterEffect | converter.py:181-193 | a delimiter sets the position to TITLE, appends the pending record to the current book and stores the book under its title, adding the title at the end of the key order when it is new; other keys, the type, the contents, the location and the timestamp are unchanged |
| Clippings.EmitOneRecord | converter.py:181-191 | exactly one record is appended, to the list the type names (none for NONE); the other lists are unchanged; Highlight and Note get the joined content, a Bookmark gets (location, timestamp) |
| Clippings.TitleLine | converter.py:194-200 | a TITLE line clears the contents, takes the Book stored under that title or a new empty one, sets its title, moves to INFO and keeps the dict, the type, the location and the timestamp |
| Clippings.InfoLine | converter.py:201-215 | an INFO line fails exactly when the location pattern has no match or the "Added on" text is not a time, with `NoLocationMatch` first and `BadTimestamp` of the text after `Added on ` second; on success it sets the location, the timestamp and the type `Classify` gives, moves to CONTENT and keeps the Book, the dict, the key order and the contents |
| Clippings.InfoLineWithoutAddedOn | converter.py:206-208 | an INFO line with a location but no `Added on ` gives the time parser the empty text `partition` returns, so it fails with `BadTimestamp("")` exactly when that text is not a time |
| Clippings.ClassifyByPrefix | converter.py:209-214 | `- Your Highlight`, `- Your Note` and `- Your Bookmark` set their types; any other line keeps the previous type |
| Clippings.ContentLine | converter.py:216-218 | a CONTENT line is appended verbatim to the contents and the position stays CONTENT |
| Clippings.ParseListsEachTitleOnce | converter.py:219-221 | the parse hands over one Book per key of `book_map`: titles are distinct, each key appears, and each Book is the one stored under its title |
| Clippings.CollectTitles | converter.py:219-221 | listing the dict's values in insertion order gives each title exactly once |
| Report.HighlightRow | converter.py:235-236 | the CSV row of a highlight; `Report.CsvRowsLayout` and `Report.CsvRoundTrip` state its cells |
| Report.NoteRow | converter.py:238-239 | the CSV row of a note; `Report.CsvRowsLayout` and `Report.CsvRoundTrip` state its cells |
| Report.BookmarkRow | converter.py:241-242 | the CSV row of a bookmark, with empty content; `Report.CsvRowsLayout` states its cells |
| Report.CsvRows | converter.py:233-242 | the rows of a Book's CSV file; `Report.CsvRowsLayout` and `Report.CsvRoundTrip` state them |
| Report.HighlightLine | converter.py:248-249 | the report line of a highlight; `Report.ReportEntries` and `Report.RecordLinesAreBullets` state it |
| Report.NoteLine | converter.py:251-252 | the report line of a note; `Report.ReportEntries` and `Report.RecordLinesAreBullets` state it |
| Report.BookmarkLine | converter.py:254-255 | the report line of a bookmark; `Report.ReportEntries` and `Report.RecordLinesAreBullets` state it |
| Report.ReportLines | converter.py:246-255 | the strings written to a Book's text file; `Report.ReportHeadings` and `Report.ReportEntries` state them |
| Report.BookFiles | converter.py:231-245 | the two files of one Book; `Report.OutputsLayout` states their paths and contents |
| Report.Outputs | converter.py:229-255 | the files of all Books, in list order; `Report.OutputsLayout` states them |
| Report.CsvRowsLayout | converter.py:233-242 | the CSV file has the header row, then one row per highlight, per note and per bookmark in stored order, 1+h+n+b rows of four cells, with empty content on bookmark rows |
| Report.CsvRoundTrip | converter.py:233-242 | reading the data rows back by their Type cell gives back exactly the Book's three lists |
| Report.ReportHeadings | converter.py:246-253 | the text report has the fixed `# Book highlights` heading and then the headings Highlights, Notes and Bookmarks, in that order, at the positions the list lengths fix |
| Report.ReportEntries | converter.py:246-255 | under each heading there is one bulleted line per record of that kind, in stored order |
| Report.RecordLinesAreBullets | converter.py:246-255 | record lines start with `- ` and headings do not, so no record line reads as a heading |
| Report.OutputsLayout | converter.py:229-255 | each Book gives its CSV file, then its text file, under `output/<title>`, in the order of `self.books` |
| Converter.Values | converter.py:229 | the values of the Books of `self.books`: one per Book, in list order |
| Blocks.InfoTextReads | converter.py:201-214 | the info line written for a block, with any span after the location that does not continue its digits and holds no `A` (such as `-124 | ` of a range), is a plain line from which the parser reads back the block's location, its `Added on` text and the type of its kind, whatever the previous type |
| Blocks.RangeSpan | converter.py:203-208 | the span `-<m> | ` of a location range `<n>-<m>` is read past: the location is the first number and the date follows `Added on ` |
| Blocks.ContentRun | converter.py:216-218 | in CONTENT position, plain lines are appended to the contents verbatim and in order, and nothing else changes |
| Blocks.HeadStep | converter.py:194-215 | the title and the info line of a block take the Book stored under the title (or a new one) and set the block's type, location and timestamp |
| Blocks.TailStep | converter.py:179-218 | the content lines and the delimiter of a block collect the lines and then emit the record from them |
| Blocks.BlockStep | converter.py:173-218 | a readable block appends exactly its own record, with its lines joined by spaces, to the Book stored under its title (or a new one), stores that Book under the title and changes no other key |
| Blocks.RunBlocks | converter.py:166-218 | a file of readable blocks never fails; afterwards every title holds its earlier Book (or a new one) with the records of its blocks appended, each kind in file order, other titles are unchanged, and new titles join the key order in order of first appearance |
| Blocks.ParseBlocks | converter.py:155-221 | a file of readable blocks parses into one Book per distinct title, in the order the titles first appear, each holding exactly the records of its blocks, highlights, notes and bookmarks each in file order |
| Blocks.ParseBlocksWithBlanks | converter.py:155-221 | a file as `readlines()` returns it, whose non-blank lines clean to those of readable blocks (line breaks, byte order marks and blank lines anywhere), parses into the same Books as `Blocks.ParseBlocks` gives: one per title in order of first appearance, each holding exactly its blocks' records in file order |
| Blocks.TitlesInFileOrder | converter.py:192 | of two parsed titles, the one listed first has its first block earlier in the file |
| Blocks.TitlesOnce | converter.py:192 | adding the blocks' titles to a key order without duplicates, each new title last, keeps it without duplicates and lists exactly the old keys and the blocks' titles |
| Blocks.GroupedStep | converter.py:181-192 | one more block adds its record to its own title's Book and to no other |
| Blocks.GroupedNone | converter.py:181-192 | a title no block names gets no records |
| Blocks.GroupedAfter | converter.py:179-193 | the Books after one more block are those after the earlier blocks with the new block's record added under its title |
| Blocks.ThreeTitles | converter.py:192 | part of the worked example: two blocks under one title with another title between them give the two titles in order of first appearance |
| Blocks.ThreeGrouped | converter.py:181-192 | part of the worked example: the file's two titles get the highlight and the note, and the bookmark, respectively |
| Blocks.MergeByTitle | converter.py:155-221 | a worked example of `Blocks.ParseBlocks`: a highlight, then another book's bookmark, then a note on the first book give two Books, the first holding the highlight and the note |
| Blocks.ParsedCsvRoundTrip | converter.py:155-242 | for a file of readable blocks, the CSV data rows written for each parsed Book read back as exactly the highlights, notes and bookmarks of the blocks under its title, each kind in file order |
| Converter.AppendRecord | converter.py:181-191 | the whole if/elif chain: the record its type names is appended to the Book's lists, and nothing for NONE, as `Emit` states |
| Converter.AddPending | converter.py:181-191 | the pending record is appended to the current book, and no other Book of the dict changes |
| Converter.Delimit | converter.py:179-193 | the delimiter branch leaves the state `DelimiterStep` gives and keeps the Books titled, distinct and made by the parser |
| Converter.NewBook | converter.py:197-198 | `Book(highlights=[], bookmarks=[], notes=[])` is a new Book with three new empty lists, shared with no stored Book |
| Converter.Retitle | converter.py:194-200 | the TITLE branch makes current the Book stored under the title or a new one, and leaves the state `TitleLine` describes |
| Converter.Entitle | converter.py:199 | setting the title changes only the current book's title, and no stored value changes |
| Converter.ReadInfo | converter.py:201-215 | the INFO branch gives the outcome `InfoStep` gives, including which error is raised first |
| Converter.ParseLine | converter.py:174-218 | one iteration gives the outcome `Step` gives, as an error or a new state, and changes only objects the parser made |
| Converter.ParseLines | converter.py:166-218 | the loop fails with the error `Parse` gives, or leaves a dict whose values, in insertion order, are what `Parse` gives |
| Converter.WriteEach | converter.py:234-242 | a `for` loop that writes `f(x)` for each element hands over exactly the images of the elements, in order, after what was written before |
| Converter.CsvWrites | converter.py:233-242 | the writer loops hand over exactly `CsvRows` of the Book |
| Converter.ReportWrites | converter.py:246-255 | the write loops write exactly `ReportLines` of the Book |
| Converter.Extractors | converter.py:36-44 | an extractor is called exactly when its own choice or `all` is selected |
| Converter.ExtractorsRun | converter.py:36-44 | `all` runs the three extractors in source order, `none` runs nothing, and each single choice runs its own extractor alone |
| Converter.Converter.constructor | converter.py:29-30 | the Converter stores the list it is given, by reference |
| Converter.Converter.AddBooks | converter.py:219-221 | the Books of the dict are appended after the existing ones, in insertion order, and keep their values |
| Converter.Converter.GetHighlightFromClippings | converter.py:155-221 | on a parse error `self.books` is unchanged; otherwise the old Books stay in front and the values appended are exactly the Books `Parse` lists |
| Converter.Converter.OutputHighlight | converter.py:223-255 | the files written are exactly `Outputs` of the current values of `self.books` |
| Converter.Converter.GetHighlights | converter.py:32-44 | the extractors chosen are called in source order; a parse error stops the dispatch; choices without clippings leave `self.books` unchanged; with clippings `self.books` changes as `GetHighlightFromClippings` states |

## Left out

- File I/O is not modelled: opening `input/clippings/My Clippings.txt`, `readlines`, `glob.iglob`, and opening and writing the output files. The parser gets the lines, and the writer returns `OutputFile` values.
- Module `Blocks` describes only info lines of the form `- Your <Kind> on Location <n><span>Added on <date>`. Other shapes, such as a page number before `Location`, are not described as blocks. What the parser does with them line by line is still given by `Clippings.Step`, `Clippings.Run` and `Clippings.Parse`.
- The quoting and escaping `csv.writer` applies is not modelled. The model hands over the rows as cells.
- Timestamp conversion (`strptime` with `'%A, %B %d, %Y %I:%M:%S %p'`, then `.timestamp()`) depends on the locale and the local time zone. It is the abstract parameter `parseTime`. An INFO line with a location but without `Added on ` hands `''` to it, so in the model it fails with `BadTimestamp("")` exactly when `parseTime("")` is None (`Clippings.InfoLineWithoutAddedOn`); `strptime` rejects the empty text for this format, so the code always raises there.
- `getHighlightFromKindleHTML` (converter.py:108-153) is left out. It is a wrapper over BeautifulSoup, which is not part of this model.
- `getHighlightFromAppleBook` (converter.py:46-106) is left out. It depends on file-name conventions and on `strptime`.
- Converter.Converter.GetHighlights: the Kindle HTML and Apple Books calls are recorded in `calls` but change nothing, because those extractors are not modelled.
- `IOConverter.askHighlightInput` (io_converter.py:16-29) is an interactive prompt and is left out. `HighlightInput` is a datatype parameter.
- main.py is left out. It builds a `Converter`, calls `getHighlights` with a fixed choice and then `outputHighlight`; the prompt call is commented out, and the fixed choice `HighlightInput.html` names no member of the enum.
- Text.ParseLocation: `\d` is read as the ASCII digits 0-9. Python's `\d` also matches other decimal digits of Unicode, which then go to `int()`.
- Converter.Converter.constructor: the shared default `books=[]` of `Converter()` is not modelled. The constructor takes the list explicitly, so two Converters share a list exactly when the caller passes the same one.
- Highlight, Bookmark and Note are values, not objects. The source never changes them after construction, so object identity is not modelled.
- The list fields of `Book` are constants. The source appends to them but never rebinds them.
- Converter.Retitle: `book_map.get(line, Book(...))` always builds the fallback Book. The model builds it too and uses it only when the title is new, which gives the same result.
- The enum `HighlightInput` keeps its five members but not their integer values (0, 1, 2, 3, 9). Only the prompt uses those values.
