/**
  The sellers table of the admin dashboard: its page and search state, the
  Prev/Next buttons (disabled at the ends and clamped), and the edit form.
 */
module AllSeller {
  import opened Wrappers
  import opened Strings
  import opened UserTable

  class SellersTable {
    var sellers: seq<User>
    var queryText: string
    var page: int

    /** Before the query answers, `sellers` is the default `[]`. */
    constructor ()
      ensures sellers == [] && queryText == "" && page == 1
      ensures PageInRange()
    {
      sellers := [];
      queryText := "";
      page := 1;
    }

    function Pages(): nat
      reads this
    {
      PageCount(|Filtered(sellers, queryText)|, PerPage)
    }

    /** The rows on screen. */
    function Rows(): seq<User>
      reads this
    {
      PageItems(Filtered(sellers, queryText), page, PerPage)
    }

    ghost predicate PageInRange()
      reads this
    {
      1 <= page <= Pages()
    }

    /** The query's `data`, read with the default `[]` when it is undefined. */
    method SellersLoaded(data: Option<seq<User>>)
      modifies this`sellers
      ensures sellers == data.GetOr([])
    {
      sellers := data.GetOr([]);
    }

    /** Typing in the search box sets the text and goes back to page 1. */
    method SearchInput(text: string)
      modifies this`queryText, this`page
      ensures queryText == text && page == 1
      ensures PageInRange()
    {
      queryText := text;
      page := 1;
    }

    /** Prev is disabled at `page <= 1`; otherwise it sets `Math.max(1, p - 1)`. */
    method ClickPrev()
      modifies this`page
      ensures page == if old(page) <= 1 then old(page) else old(page) - 1
      ensures old(PageInRange()) ==> PageInRange()
    {
      if !(page <= 1) {
        page := PrevPage(page);
      }
    }

    /** Next is disabled at `page >= pages`; otherwise it sets `Math.min(pages, p + 1)`. */
    method ClickNext()
      modifies this`page
      ensures page == if old(page) >= Pages() then old(page) else old(page) + 1
      ensures old(PageInRange()) ==> PageInRange()
    {
      if !(page >= Pages()) {
        page := NextPage(page, Pages());
      }
    }
  }

  /** What the edit form submits. */
  datatype Updates = Updates(name: string, email: string, role: string)

  const RoleOptions: set<string> := {"seller", "user", "admin"}

  class EditForm {
    var name: string
    var email: string
    var role: string

    /** The form opens on the account's fields, with "" for a missing name or e-mail and "seller" for a missing role. */
    constructor (user: User)
      ensures name == OrElse(user.name, "") && email == OrElse(user.email, "")
      ensures role == OrElse(user.role, "seller")
      ensures Truthy(user.name) ==> name == user.name.value
      ensures !Truthy(user.role) ==> role == "seller"
    {
      name := OrElse(user.name, "");
      email := OrElse(user.email, "");
      role := OrElse(user.role, "seller");
    }

    method SetName(value: string)
      modifies this`name
      ensures name == value
    {
      name := value;
    }

    method SetEmail(value: string)
      modifies this`email
      ensures email == value
    {
      email := value;
    }

    /** The role select offers "seller", "user" and "admin". */
    method SetRole(value: string)
      requires value in RoleOptions
      modifies this`role
      ensures role == value
    {
      role := value;
    }

    /** Submitting sends exactly the three form fields. */
    method Submit() returns (updates: Updates)
      ensures updates.name == name && updates.email == email && updates.role == role
    {
      updates := Updates(name, email, role);
    }
  }

  /** Saving an untouched form sends the account's fields with their defaults filled in. */
  method SubmitUnedited(user: User) returns (updates: Updates)
    ensures updates == Updates(OrElse(user.name, ""), OrElse(user.email, ""), OrElse(user.role, "seller"))
    ensures updates.role != ""
  {
    var form := new EditForm(user);
    updates := form.Submit();
  }
}
