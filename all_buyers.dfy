/**
  The buyers table of the admin dashboard: the same search and paging as the
  sellers table, over buyer accounts, without the edit form.
 */
module AllBuyers {
  import opened Wrappers
  import opened UserTable

  class BuyersTable {
    var buyers: seq<User>
    var queryText: string
    var page: int

    constructor ()
      ensures buyers == [] && queryText == "" && page == 1
      ensures PageInRange()
    {
      buyers := [];
      queryText := "";
      page := 1;
    }

    function Pages(): nat
      reads this
    {
      PageCount(|Filtered(buyers, queryText)|, PerPage)
    }

    function Rows(): seq<User>
      reads this
    {
      PageItems(Filtered(buyers, queryText), page, PerPage)
    }

    ghost predicate PageInRange()
      reads this
    {
      1 <= page <= Pages()
    }

    method BuyersLoaded(data: Option<seq<User>>)
      modifies this`buyers
      ensures buyers == data.GetOr([])
    {
      buyers := data.GetOr([]);
    }

    method SearchInput(text: string)
      modifies this`queryText, this`page
      ensures queryText == text && page == 1
      ensures PageInRange()
    {
      queryText := text;
      page := 1;
    }

    method ClickPrev()
      modifies this`page
      ensures page == if old(page) <= 1 then old(page) else old(page) - 1
      ensures old(page) >= 1 ==> page >= 1
      ensures old(PageInRange()) ==> PageInRange()
    {
      if !(page <= 1) {
        page := PrevPage(page);
      }
    }

    method ClickNext()
      modifies this`page
      ensures page == if old(page) >= Pages() then old(page) else old(page) + 1
      ensures old(page) <= Pages() ==> page <= Pages()
      ensures old(PageInRange()) ==> PageInRange()
    {
      if !(page >= Pages()) {
        page := NextPage(page, Pages());
      }
    }
  }
}
