/**
  The book catalogue page: a case-insensitive search over title, author and
  genre, a category filter, page slicing with 10, 20 or 30 books a page, the
  previous/next buttons and the row of at most five page buttons.
 */
module BooksPage {
  import opened Wrappers
  import Seqs
  import opened Strings

  datatype Book = Book(title: Option<string>, author: Option<string>, genre: Option<string>)

  /** `field?.toLowerCase().includes(term.toLowerCase())`; an absent field never matches. */
  predicate FieldMatches(field: Option<string>, term: string) {
    field.Some? && Includes(Lower(field.value), Lower(term))
  }

  predicate MatchesSearch(book: Book, term: string) {
    FieldMatches(book.title, term) || FieldMatches(book.author, term) || FieldMatches(book.genre, term)
  }

  predicate MatchesCategory(book: Book, category: string) {
    category == "All" || book.genre == Some(category)
  }

  predicate Shown(book: Book, term: string, category: string) {
    MatchesSearch(book, term) && MatchesCategory(book, category)
  }

  /** `filteredBooks`. */
  function FilteredBooks(books: seq<Book>, term: string, category: string): seq<Book> {
    Seqs.Filter((b: Book) => Shown(b, term, category), books)
  }

  /**
    A book is listed iff some present field contains the term, ignoring case,
    and the category is "All" or the book's genre; the listed books keep their
    order.
   */
  lemma FilteredBooksSpec(books: seq<Book>, term: string, category: string)
    ensures forall b :: b in FilteredBooks(books, term, category) <==>
      b in books && MatchesSearch(b, term) && (category == "All" || b.genre == Some(category))
    ensures forall a, c :: FilteredBooks(a + c, term, category) == FilteredBooks(a, term, category) + FilteredBooks(c, term, category)
  {
    forall a, c ensures FilteredBooks(a + c, term, category) == FilteredBooks(a, term, category) + FilteredBooks(c, term, category) {
      Seqs.FilterConcat((b: Book) => Shown(b, term, category), a, c);
    }
  }

  /** A book with no title, author or genre is never listed, not even for an empty search. */
  lemma NoTextNeverListed(books: seq<Book>, term: string, category: string, b: Book)
    requires b.title.None? && b.author.None? && b.genre.None?
    ensures b !in FilteredBooks(books, term, category)
  {
  }

  /** With an empty search and the "All" category, exactly the books with some text field are listed. */
  lemma EmptySearchKeepsBooksWithText(books: seq<Book>, b: Book)
    ensures b in FilteredBooks(books, "", "All") <==>
      b in books && (b.title.Some? || b.author.Some? || b.genre.Some?)
  {
    if b.title.Some? { IncludesEmpty(Lower(b.title.value)); }
    if b.author.Some? { IncludesEmpty(Lower(b.author.value)); }
    if b.genre.Some? { IncludesEmpty(Lower(b.genre.value)); }
    assert Lower("") == "";
  }

  /** `Math.ceil(filteredBooks.length / itemsPerPage)`: 0 when nothing is listed. */
  function TotalPages(count: nat, perPage: nat): nat
    requires perPage > 0
  {
    Seqs.CeilDiv(count, perPage)
  }

  /** `filteredBooks.slice(indexOfFirstBook, indexOfLastBook)`. */
  function CurrentBooks(filtered: seq<Book>, page: int, perPage: nat): seq<Book> {
    var last := page * perPage;
    Seqs.Slice(filtered, last - perPage, last)
  }

  /**
    Page `p` shows the books at positions `(p-1)*k` up to `p*k`, clipped to the
    list: never more than `k` of them, and none at all past the last page.
   */
  lemma {:induction false} CurrentBooksSpec(filtered: seq<Book>, page: nat, perPage: nat)
    requires page >= 1 && perPage > 0
    ensures |CurrentBooks(filtered, page, perPage)| <= perPage
    ensures forall i :: 0 <= i < |CurrentBooks(filtered, page, perPage)| ==>
      CurrentBooks(filtered, page, perPage)[i] == filtered[(page - 1) * perPage + i]
    ensures page <= TotalPages(|filtered|, perPage) <==> |CurrentBooks(filtered, page, perPage)| > 0
  {
    var first := (page - 1) * perPage;
    assert page * perPage == first + perPage;
    Seqs.SliceNonNegative(filtered, first, first + perPage);
    Seqs.PageStartsInside(|filtered|, perPage, page);
  }

  /** The "Showing a to b of n" line, for a page that has books, counts exactly the books shown. */
  lemma {:induction false} ShowingRange(filtered: seq<Book>, page: nat, perPage: nat)
    requires perPage > 0 && 1 <= page <= TotalPages(|filtered|, perPage)
    ensures var from, to := (page * perPage - perPage) + 1, Seqs.Min(page * perPage, |filtered|);
      1 <= from <= to <= |filtered| && to - from + 1 == |CurrentBooks(filtered, page, perPage)|
  {
    var first := (page - 1) * perPage;
    assert page * perPage == first + perPage;
    Seqs.SliceNonNegative(filtered, first, first + perPage);
    CurrentBooksSpec(filtered, page, perPage);
  }

  /** The page numbers on the buttons (`Array.from({length: Math.min(5, totalPages)}, ...)`). */
  function PageWindow(current: int, total: nat): seq<int> {
    seq(Seqs.Min(5, total), i requires 0 <= i =>
      if total <= 5 then i + 1
      else if current <= 3 then i + 1
      else if current >= total - 2 then total - 4 + i
      else current - 2 + i)
  }

  /** The ellipsis and a button for the last page follow the window. */
  predicate ShowsLastPageButton(current: int, total: nat) {
    total > 5 && current < total - 2
  }

  /**
    The window holds `min(5, total)` consecutive page numbers, all in
    `[1, total]`, and it holds the current page whenever that is a real page.
   */
  lemma PageWindowSpec(current: int, total: nat)
    ensures |PageWindow(current, total)| == Seqs.Min(5, total)
    ensures forall i :: 0 <= i < |PageWindow(current, total)| ==> 1 <= PageWindow(current, total)[i] <= total
    ensures forall i :: 0 < i < |PageWindow(current, total)| ==> PageWindow(current, total)[i] == PageWindow(current, total)[i - 1] + 1
    ensures 1 <= current <= total ==> current in PageWindow(current, total)
  {
    var w := PageWindow(current, total);
    if 1 <= current <= total {
      if total <= 5 || current <= 3 {
        assert w[current - 1] == current;
      } else if current >= total - 2 {
        assert w[current - total + 4] == current;
      } else {
        assert w[2] == current;
      }
    }
  }

  /**
    The last-page button appears exactly when the window does not already show
    the last page, and then every number in the window is below it.
   */
  lemma LastPageButtonSpec(current: int, total: nat)
    requires total >= 1
    ensures ShowsLastPageButton(current, total) <==> total !in PageWindow(current, total)
    ensures ShowsLastPageButton(current, total) ==> forall i :: 0 <= i < |PageWindow(current, total)| ==> PageWindow(current, total)[i] < total
  {
    var w := PageWindow(current, total);
    if !ShowsLastPageButton(current, total) {
      assert w[|w| - 1] == total;
    }
  }

  const PageSizes: set<nat> := {10, 20, 30}

  /** The page's state, updated by its event handlers. */
  class BooksPageState {
    var books: seq<Book>
    var currentPage: int
    var itemsPerPage: nat
    var searchTerm: string
    var selectedCategory: string

    /** The `useState` initial values; the catalogue is empty until the fetch answers. */
    constructor ()
      ensures books == [] && currentPage == 1 && itemsPerPage == 10
      ensures searchTerm == "" && selectedCategory == "All"
      ensures PageInRange()
    {
      books := [];
      currentPage := 1;
      itemsPerPage := 10;
      searchTerm := "";
      selectedCategory := "All";
    }

    function Filtered(): seq<Book>
      reads this
    {
      FilteredBooks(books, searchTerm, selectedCategory)
    }

    function Total(): nat
      reads this
      requires itemsPerPage > 0
    {
      TotalPages(|Filtered()|, itemsPerPage)
    }

    /** The current page is a page that exists (page 1 when there are no books). */
    ghost predicate PageInRange()
      reads this
    {
      itemsPerPage > 0 && 1 <= currentPage <= Seqs.Max(1, Total())
    }

    /** `setBooks(data)` when the fetch answers. */
    method BooksLoaded(data: seq<Book>)
      modifies this
      ensures books == data
      ensures currentPage == old(currentPage) && itemsPerPage == old(itemsPerPage)
      ensures searchTerm == old(searchTerm) && selectedCategory == old(selectedCategory)
      ensures itemsPerPage > 0 && currentPage == 1 ==> PageInRange()
    {
      books := data;
    }

    method NextPage()
      requires itemsPerPage > 0
      modifies this`currentPage
      ensures currentPage == if old(currentPage) < Total() then old(currentPage) + 1 else old(currentPage)
      ensures old(PageInRange()) ==> PageInRange()
    {
      if currentPage < Total() {
        currentPage := currentPage + 1;
      }
    }

    method PrevPage()
      modifies this`currentPage
      ensures currentPage == if old(currentPage) > 1 then old(currentPage) - 1 else old(currentPage)
      ensures old(PageInRange()) ==> PageInRange()
    {
      if currentPage > 1 {
        currentPage := currentPage - 1;
      }
    }

    /** `paginate(n)`, from a window button or the last-page button. */
    method Paginate(pageNumber: int)
      modifies this`currentPage
      ensures currentPage == pageNumber
      ensures itemsPerPage > 0 && 1 <= pageNumber <= Total() ==> PageInRange()
    {
      currentPage := pageNumber;
    }

    method SelectCategory(category: string)
      modifies this
      ensures selectedCategory == category && currentPage == 1
      ensures books == old(books) && searchTerm == old(searchTerm) && itemsPerPage == old(itemsPerPage)
      ensures itemsPerPage > 0 ==> PageInRange()
    {
      selectedCategory := category;
      currentPage := 1;
    }

    method SetSearchTerm(term: string)
      modifies this
      ensures searchTerm == term && currentPage == 1
      ensures books == old(books) && selectedCategory == old(selectedCategory) && itemsPerPage == old(itemsPerPage)
      ensures itemsPerPage > 0 ==> PageInRange()
    {
      searchTerm := term;
      currentPage := 1;
    }

    /** The page-size select offers 10, 20 and 30. */
    method SetItemsPerPage(size: nat)
      requires size in PageSizes
      modifies this
      ensures itemsPerPage == size && currentPage == 1
      ensures books == old(books) && searchTerm == old(searchTerm) && selectedCategory == old(selectedCategory)
      ensures PageInRange()
    {
      itemsPerPage := size;
      currentPage := 1;
    }
  }

  /** Clicking any window button keeps the page in range. */
  method ClickWindowButton(page: BooksPageState, i: nat)
    requires page.itemsPerPage > 0
    requires i < |PageWindow(page.currentPage, page.Total())|
    modifies page`currentPage
    ensures page.PageInRange()
  {
    PageWindowSpec(page.currentPage, page.Total());
    page.Paginate(PageWindow(page.currentPage, page.Total())[i]);
  }
}
