/**
 * The record model of book.py: the three annotation kinds, the Book that
 * owns them, and the Python lists a Book refers to.
 *
 * Highlight, Bookmark and Note objects are built once and never changed
 * afterwards, so they are values here; their constructors keep the Python
 * defaults and the Python argument order. A Book is changed in place (its
 * title is reassigned and its lists are appended to), and it stores the
 * lists it is given by reference, so Book and the lists are classes.
 */
module Records {

  /** `Highlight(content='', time=0, location=0)` (book.py:4-8). */
  datatype Highlight = Highlight(content: string := "", time: int := 0, location: int := 0)

  /** `Bookmark(location=0, time=0)`: location comes first and there is no content (book.py:11-14). */
  datatype Bookmark = Bookmark(location: int := 0, time: int := 0)

  /** `Note(content='', time=0, location=0)`: the shape of a Highlight (book.py:17-21). */
  datatype Note = Note(content: string := "", time: int := 0, location: int := 0)

  /** What a Book holds at one moment: its title and the contents of its three lists. */
  datatype BookValue = BookValue(title: string, highlights: seq<Highlight>, bookmarks: seq<Bookmark>, notes: seq<Note>)

  /** The value of `Book()` built with empty lists. */
  function EmptyBook(title: string): BookValue
  {
    BookValue(title, [], [], [])
  }

  /** A mutable Python list; holders share it by reference. */
  class RecordList<T> {
    var items: seq<T>

    /** `[]` or `list()`: a new, empty list. */
    constructor Empty()
      ensures items == []
    {
      items := [];
    }

    /** `list.append(x)`. */
    method Append(x: T)
      modifies this
      ensures items == old(items) + [x]
    {
      items := items + [x];
    }
  }

  /**
   * The three `list()` objects that Python evaluates once, when the
   * definition of `Book.__init__` is executed (book.py:27-29). Every Book
   * built without explicit lists refers to these same three objects.
   */
  class BookDefaults {
    const highlights: RecordList<Highlight>
    const bookmarks: RecordList<Bookmark>
    const notes: RecordList<Note>

    constructor ()
      ensures fresh(highlights) && fresh(bookmarks) && fresh(notes)
      ensures highlights.items == [] && bookmarks.items == [] && notes.items == []
    {
      highlights := new RecordList.Empty();
      bookmarks := new RecordList.Empty();
      notes := new RecordList.Empty();
    }
  }

  /**
   * A Book is retitled in place (converter.py:199) and its lists are
   * appended to, but no list field is ever rebound, so those are constants
   * holding the list objects.
   */
  class Book {
    var title: string
    const highlights: RecordList<Highlight>
    const bookmarks: RecordList<Bookmark>
    const notes: RecordList<Note>

    /** `Book(title, highlights, bookmarks, notes)`: the lists are stored, not copied (book.py:25-33). */
    constructor (title: string, highlights: RecordList<Highlight>, bookmarks: RecordList<Bookmark>, notes: RecordList<Note>)
      ensures this.title == title
      ensures this.highlights == highlights && this.bookmarks == bookmarks && this.notes == notes
    {
      this.title := title;
      this.highlights := highlights;
      this.bookmarks := bookmarks;
      this.notes := notes;
    }

    /** `Book(title)` with the list arguments omitted: the lists are the shared defaults. */
    constructor WithDefaults(defaults: BookDefaults, title: string := "")
      ensures this.title == title
      ensures highlights == defaults.highlights && bookmarks == defaults.bookmarks && notes == defaults.notes
    {
      this.title := title;
      highlights := defaults.highlights;
      bookmarks := defaults.bookmarks;
      notes := defaults.notes;
    }

    /** The title and the current contents of the three lists. */
    function Value(): BookValue
      reads this, highlights, bookmarks, notes
    {
      BookValue(title, highlights.items, bookmarks.items, notes.items)
    }
  }

  /** The record constructors' defaults and argument order (book.py:5-8, 12-14, 18-21). */
  lemma RecordDefaults(content: string, time: int, location: int)
    ensures Highlight() == Highlight("", 0, 0) && Highlight(content) == Highlight(content, 0, 0)
    ensures Note() == Note("", 0, 0) && Note(content).time == 0 && Note(content).location == 0
    ensures Bookmark() == Bookmark(0, 0)
    ensures Bookmark(location, time).location == location && Bookmark(location, time).time == time
    ensures Highlight(content, time, location).content == content
    ensures Highlight(content, time, location).time == time && Highlight(content, time, location).location == location
  {
  }

  /**
   * Two Books built without explicit lists share their lists: a record
   * appended through the first is seen through the second (book.py:27-29).
   */
  method SharedDefaultLists(defaults: BookDefaults, h: Highlight) returns (first: Book, second: Book)
    modifies defaults.highlights
    ensures fresh(first) && fresh(second) && first != second
    ensures first.highlights == second.highlights == defaults.highlights
    ensures first.Value().highlights == second.Value().highlights == old(defaults.highlights.items) + [h]
  {
    first := new Book.WithDefaults(defaults);
    second := new Book.WithDefaults(defaults, "another title");
    first.highlights.Append(h);
  }
}
