/**
  The search-and-page logic the two admin tables (sellers and buyers) share,
  line for line: filter accounts by name or e-mail, count the pages (at least
  one), cut out the current page, and number the rows across pages.
 */
module UserTable {
  import opened Wrappers
  import Seqs
  import opened Strings

  datatype User = User(dbId: Option<string>, name: Option<string>, email: Option<string>, role: Option<string>)

  /** Rows per page; the tables never change it. */
  const PerPage: nat := 10

  /** `(u.name || "").toLowerCase().includes(q) || (u.email || "").toLowerCase().includes(q)`, for a lower-cased `q`. */
  predicate UserMatches(u: User, q: string) {
    Includes(Lower(OrElse(u.name, "")), q) || Includes(Lower(OrElse(u.email, "")), q)
  }

  /** The `filtered` memo. */
  function Filtered(users: seq<User>, queryText: string): seq<User> {
    if queryText == "" then users
    else
      var q := Lower(queryText);
      Seqs.Filter((u: User) => UserMatches(u, q), users)
  }

  /**
    An empty query lists everyone unchanged; otherwise exactly the accounts
    whose name or e-mail (missing ones read as "") contains the lower-cased
    query are listed, in their original order.
   */
  lemma FilteredSpec(users: seq<User>, queryText: string)
    ensures queryText == "" ==> Filtered(users, queryText) == users
    ensures queryText != "" ==> forall u :: u in Filtered(users, queryText) <==> u in users && UserMatches(u, Lower(queryText))
    ensures forall a, b :: Filtered(a + b, queryText) == Filtered(a, queryText) + Filtered(b, queryText)
  {
    forall a, b ensures Filtered(a + b, queryText) == Filtered(a, queryText) + Filtered(b, queryText) {
      if queryText != "" {
        var q := Lower(queryText);
        Seqs.FilterConcat((u: User) => UserMatches(u, q), a, b);
      }
    }
  }

  /** `Math.max(1, Math.ceil(total / perPage))`. */
  function PageCount(total: nat, perPage: nat): (pages: nat)
    requires perPage > 0
    ensures pages >= 1
    ensures total <= pages * perPage
    ensures total > 0 ==> (pages - 1) * perPage < total
  {
    Seqs.Max(1, Seqs.CeilDiv(total, perPage))
  }

  /** `filtered.slice((page - 1) * perPage, page * perPage)`. */
  function PageItems(filtered: seq<User>, page: int, perPage: nat): seq<User> {
    Seqs.Slice(filtered, (page - 1) * perPage, page * perPage)
  }

  /** The `#` column: `(page - 1) * perPage + i + 1`. */
  function RowNumber(page: int, perPage: nat, i: nat): int {
    (page - 1) * perPage + i + 1
  }

  /** Prev: `Math.max(1, p - 1)`. */
  function PrevPage(page: int): (p: int)
    ensures p >= 1
    ensures page > 1 ==> p == page - 1
  {
    Seqs.Max(1, page - 1)
  }

  /** Next: `Math.min(pages, p + 1)`. */
  function NextPage(page: int, pages: nat): (p: int)
    ensures p <= pages
    ensures page < pages ==> p == page + 1
  {
    Seqs.Min(pages, page + 1)
  }

  /**
    Page `p` holds at most `perPage` accounts, and its row `i` is account number
    `RowNumber(p, perPage, i)` of the filtered list (counting from 1).
   */
  lemma {:induction false} PageItemsSpec(filtered: seq<User>, page: nat, perPage: nat)
    requires page >= 1 && perPage > 0
    ensures |PageItems(filtered, page, perPage)| <= perPage
    ensures forall i :: 0 <= i < |PageItems(filtered, page, perPage)| ==>
      1 <= RowNumber(page, perPage, i) <= |filtered| && PageItems(filtered, page, perPage)[i] == filtered[RowNumber(page, perPage, i) - 1]
  {
    var first := (page - 1) * perPage;
    assert page * perPage == first + perPage;
    Seqs.SliceNonNegative(filtered, first, first + perPage);
  }

  /** Every listed account is on some page within the page count, and its row number is its position plus one. */
  lemma {:induction false} EveryUserOnAPage(filtered: seq<User>, perPage: nat, i: nat)
    requires perPage > 0 && i < |filtered|
    ensures var page, row := i / perPage + 1, i % perPage;
      page <= PageCount(|filtered|, perPage) &&
      row < |PageItems(filtered, page, perPage)| &&
      PageItems(filtered, page, perPage)[row] == filtered[i] &&
      RowNumber(page, perPage, row) == i + 1
  {
    var page, row := i / perPage + 1, i % perPage;
    assert (page - 1) * perPage + row == i;
    Seqs.PageStartsInside(|filtered|, perPage, page);
    assert page * perPage == (page - 1) * perPage + perPage;
    Seqs.SliceNonNegative(filtered, (page - 1) * perPage, (page - 1) * perPage + perPage);
  }
}
