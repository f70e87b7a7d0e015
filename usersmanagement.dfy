/** The users table of the admin dashboard
    (`src/components/dashboard/UsersManagement.jsx`): the choice between a
    search and a paged load, and the state `users`, `total`, `currentPage`
    and `searchTerm`. */
module UsersManagement {
  import opened Js
  import Pagination

  datatype User = User(id: int, firstName: string, lastName: string, username: string, email: string, phone: string)

  /** The fields `loadUsers` and `performSearch` read from the awaited value:
      `users` and `total`. */
  datatype UsersResponse = UsersResponse(users: Option<seq<User>>, total: Option<nat>)

  /** The request the table sends: a search with the term as typed, or one
      page of all users. */
  datatype UsersRequest = Search(query: string) | AllUsers(limit: nat, skip: int)

  /** The effects' test `searchTerm.trim() ? performSearch() : loadUsers()`. */
  function RequestFor(searchTerm: string, currentPage: int): (r: UsersRequest)
    ensures r.Search? ==> r.query == searchTerm
    ensures r.AllUsers? ==> r.limit == Pagination.PageSize && r.skip == Pagination.Skip(currentPage)
  {
    if Trim(searchTerm) != "" then Search(searchTerm)
    else AllUsers(Pagination.PageSize, Pagination.Skip(currentPage))
  }

  /** The pager is rendered only for an empty term; the test is on the term
      as typed, not trimmed. Whenever it is shown, the table holds a page of
      all users, whatever the page. */
  predicate PagerShown(searchTerm: string): (b: bool)
    ensures b ==> forall page :: RequestFor(searchTerm, page).AllUsers?
  {
    searchTerm == ""
  }

  /** A search is sent exactly when the term holds a character that is not
      white space. */
  lemma SearchIffNonBlank(searchTerm: string, currentPage: int)
    ensures RequestFor(searchTerm, currentPage).Search? <==> !AllSpace(searchTerm)
  {
    TrimEmptyIffAllSpace(searchTerm);
  }

  /** A term of white space only loads a page of all users, yet hides the
      pager that would move through those pages. */
  lemma BlankTermHidesPager(searchTerm: string, currentPage: int)
    requires searchTerm != "" && AllSpace(searchTerm)
    ensures RequestFor(searchTerm, currentPage) == AllUsers(Pagination.PageSize, Pagination.Skip(currentPage))
    ensures !PagerShown(searchTerm)
  {
    TrimEmptyIffAllSpace(searchTerm);
  }

  class UsersTable {
    var users: seq<User>
    var currentPage: int
    var total: nat
    var searchTerm: string

    constructor ()
      ensures users == [] && currentPage == 1 && total == 0 && searchTerm == ""
    {
      users := [];
      currentPage := 1;
      total := 0;
      searchTerm := "";
    }

    function TotalPages(): nat
      reads this
    {
      Pagination.TotalPages(total)
    }

    /** Typing into the search box. The effect it triggers is a call of
        `Load`; the 500 ms debounce before a search is not modelled. */
    method SetSearchTerm(value: string)
      modifies this`searchTerm
      ensures searchTerm == value
    {
      searchTerm := value;
    }

    /** The effect run on a change of `currentPage` or `searchTerm`, with the
        response its request delivered: `performSearch` replaces the users and
        the total and goes back to page 1; `loadUsers` replaces them and keeps
        the page. */
    method Load(response: UsersResponse) returns (request: UsersRequest)
      modifies this`users, this`total, this`currentPage
      ensures request == RequestFor(searchTerm, old(currentPage))
      ensures users == response.users.GetOr([])
      ensures total == response.total.GetOr(0)
      ensures currentPage == if request.Search? then 1 else old(currentPage)
    {
      request := RequestFor(searchTerm, currentPage);
      users := response.users.GetOr([]);
      total := response.total.GetOr(0);
      if request.Search? {
        currentPage := 1;
      }
    }

    /** A click on one of the rendered pager buttons. */
    method Click(b: Pagination.PagerButton)
      requires PagerShown(searchTerm)
      requires b.Item? ==> b.page in Pagination.Window(currentPage, TotalPages())
      modifies this`currentPage
      ensures currentPage == Pagination.Click(b, old(currentPage), TotalPages())
    {
      currentPage := Pagination.Click(b, currentPage, TotalPages());
    }
  }
}
