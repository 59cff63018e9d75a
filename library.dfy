/** The book list of the library page (React-Project/Experiment-8/src/components/Library.jsx).

    The component's state is the book list, the search text and the two inputs of the
    add form. Every handler builds new values from the old ones, so each is a function
    from the old state. */
module Library {
  import opened Strings
  import opened Collections

  datatype Book = Book(title: string, author: string)

  datatype LibraryState = LibraryState(books: seq<Book>, search: string, newTitle: string, newAuthor: string)

  /** `handleAddBook`: when both inputs have something besides blanks, the book is added
      as typed (untrimmed) and both inputs are cleared; otherwise nothing changes. */
  function AddBook(st: LibraryState): LibraryState {
    if Trim(st.newTitle) != "" && Trim(st.newAuthor) != "" then
      st.(books := st.books + [Book(st.newTitle, st.newAuthor)], newTitle := "", newAuthor := "")
    else st
  }

  lemma AddBookFacts(st: LibraryState)
    ensures var r := AddBook(st);
      && (|r.books| == |st.books| + 1 <==> !IsBlank(st.newTitle) && !IsBlank(st.newAuthor))
      && (IsBlank(st.newTitle) || IsBlank(st.newAuthor) ==> r == st)
      && (!IsBlank(st.newTitle) && !IsBlank(st.newAuthor) ==>
            && r.books[..|st.books|] == st.books
            && r.books[|st.books|] == Book(st.newTitle, st.newAuthor)
            && r.newTitle == "" && r.newAuthor == "" && r.search == st.search)
  {
    var r := AddBook(st);
    if !IsBlank(st.newTitle) && !IsBlank(st.newAuthor) {
      assert r.books[..|st.books|] == st.books;
    }
  }

  /** `books.filter((_, i) => i !== index)`. */
  function RemoveAt(books: seq<Book>, index: int): (r: seq<Book>)
    ensures 0 <= index < |books| ==> r == books[..index] + books[index + 1..]
    ensures !(0 <= index < |books|) ==> r == books
  {
    if books == [] then []
    else
      var rest := RemoveAt(books[1..], index - 1);
      if index == 0 then
        assert books[..0] + books[1..] == books[1..];
        rest
      else
        assert [books[0]] + books[1..] == books;
        assert 0 < index < |books| ==>
          [books[0]] + (books[1..][..index - 1] + books[1..][index..]) == books[..index] + books[index + 1..] by {
          if 0 < index < |books| {
            assert books[1..][..index - 1] == books[1..index];
            assert books[1..][index..] == books[index + 1..];
            assert [books[0]] + books[1..index] == books[..index];
          }
        }
        [books[0]] + rest
  }

  /** Removing at a valid index drops one book and keeps the order of the others. */
  lemma RemoveAtFacts(books: seq<Book>, index: int)
    ensures 0 <= index < |books| ==>
      && |RemoveAt(books, index)| == |books| - 1
      && (forall i :: 0 <= i < index ==> RemoveAt(books, index)[i] == books[i])
      && (forall i :: index <= i < |books| - 1 ==> RemoveAt(books, index)[i] == books[i + 1])
    ensures IsSubsequence(RemoveAt(books, index), books)
  {
    if 0 <= index < |books| {
      RemoveIsSubsequence(books, index);
    } else {
      SubsequenceOfSelf(books);
    }
  }

  lemma {:induction false} RemoveIsSubsequence(books: seq<Book>, index: nat)
    requires index < |books|
    ensures IsSubsequence(books[..index] + books[index + 1..], books)
  {
    var r := books[..index] + books[index + 1..];
    if index == 0 {
      assert r == books[1..];
      SubsequenceOfSelf(books[1..]);
      assert r == [] || IsSubsequence(r, books[1..]);
    } else {
      RemoveIsSubsequence(books[1..], index - 1);
      assert books[1..][..index - 1] + books[1..][index..] == r[1..];
      assert r[0] == books[0];
    }
  }

  /** The filter test: the lower-cased search text occurs in the lower-cased title or
      author. */
  predicate Matches(book: Book, search: string) {
    Includes(ToLower(book.title), ToLower(search)) || Includes(ToLower(book.author), ToLower(search))
  }

  /** `filteredBooks`. */
  function FilteredBooks(books: seq<Book>, search: string): (r: seq<Book>)
    ensures forall b :: b in r <==> b in books && Matches(b, search)
  {
    Filter(books, (b: Book) => Matches(b, search))
  }

  /** The filtered list keeps the books' order and only drops books; an empty search
      keeps every book. */
  lemma FilterFacts(books: seq<Book>, search: string)
    ensures IsSubsequence(FilteredBooks(books, search), books)
    ensures search == "" ==> FilteredBooks(books, search) == books
  {
    FilterIsSubsequence(books, (b: Book) => Matches(b, search));
    if search == "" {
      assert ToLower(search) == "";
      forall b | b in books ensures Matches(b, search) {
        IncludesEmpty(ToLower(b.title));
      }
      FilterAll(books, (b: Book) => Matches(b, search));
    }
  }
}
