/**
 * The later version of the email client: the same page counter, sets and
 * filter, plus the browser's local storage, where the favourite and read
 * sets are saved as id lists after every change and read back when the page
 * loads.
 */
module EmailScript {
  import opened Wrappers
  import opened Decimal
  import opened OrderedSet
  import Mailbox

  /** What `updatePaginationControls` writes into the page. */
  datatype Controls = Controls(pageInfo: string, prevDisabled: bool, nextDisabled: bool)

  class Inbox {
    var currentPage: nat
    var totalPages: nat
    var favoriteEmails: seq<Mailbox.Id>
    var readEmails: seq<Mailbox.Id>
    var filter: string
    /** The `"favoriteEmails"` and `"readEmails"` local-storage entries, as the id lists they hold. */
    var storedFavorites: Option<seq<Mailbox.Id>>
    var storedRead: Option<seq<Mailbox.Id>>

    /** The page counter stays within the pages; the id sets hold each id once. */
    ghost predicate Valid()
      reads this
    {
      && 1 <= currentPage <= totalPages
      && Distinct(favoriteEmails)
      && Distinct(readEmails)
    }

    /**
     * The module state when the page loads, before `loadPersistedData`: page 1
     * of 2, empty sets, filter `"all"`, and whatever local storage holds.
     */
    constructor (favoritesEntry: Option<seq<Mailbox.Id>>, readEntry: Option<seq<Mailbox.Id>>)
      ensures Valid()
      ensures currentPage == 1 && totalPages == 2
      ensures favoriteEmails == [] && readEmails == [] && filter == "all"
      ensures storedFavorites == favoritesEntry && storedRead == readEntry
    {
      currentPage, totalPages := 1, 2;
      favoriteEmails, readEmails := [], [];
      filter := "all";
      storedFavorites, storedRead := favoritesEntry, readEntry;
    }

    /**
     * `loadPersistedData`: each set present in storage is rebuilt from its
     * list; a missing entry leaves that set as it is. Rebuilding a set from
     * the list it was saved as gives back the same set, in the same order.
     */
    method LoadPersistedData()
      requires Valid()
      modifies this`favoriteEmails, this`readEmails
      ensures Valid()
      ensures favoriteEmails == if old(storedFavorites).Some? then FromList(old(storedFavorites).value) else old(favoriteEmails)
      ensures readEmails == if old(storedRead).Some? then FromList(old(storedRead).value) else old(readEmails)
      ensures old(storedFavorites) == Some(old(favoriteEmails)) ==> favoriteEmails == old(favoriteEmails)
      ensures old(storedRead) == Some(old(readEmails)) ==> readEmails == old(readEmails)
    {
      if storedFavorites.Some? {
        FromListOfDistinct(favoriteEmails);
        favoriteEmails := FromList(storedFavorites.value);
      }
      if storedRead.Some? {
        FromListOfDistinct(readEmails);
        readEmails := FromList(storedRead.value);
      }
    }

    /** The Next button: moves one page on unless already on the last page. */
    method NextPage()
      requires Valid()
      modifies this`currentPage
      ensures Valid()
      ensures currentPage == if old(currentPage) < totalPages then old(currentPage) + 1 else old(currentPage)
    {
      if currentPage < totalPages {
        currentPage := currentPage + 1;
      }
    }

    /** The Prev button: moves one page back unless already on page 1. */
    method PrevPage()
      requires Valid()
      modifies this`currentPage
      ensures Valid()
      ensures currentPage == if old(currentPage) > 1 then old(currentPage) - 1 else old(currentPage)
    {
      if currentPage > 1 {
        currentPage := currentPage - 1;
      }
    }

    /**
     * `updatePaginationControls`: Prev is disabled exactly when the Prev
     * handler would not move, and Next exactly when the Next handler would not.
     */
    function PaginationControls(): (c: Controls)
      reads this
      requires Valid()
      ensures c.prevDisabled <==> !(currentPage > 1)
      ensures c.nextDisabled <==> !(currentPage < totalPages)
      ensures c.pageInfo == "Page " + Show(currentPage) + " of " + Show(totalPages)
    {
      Controls("Page " + Show(currentPage) + " of " + Show(totalPages),
               currentPage == 1, currentPage == totalPages)
    }

    /** A filter button sets the mode the list is shown in. */
    method SetFilter(value: string)
      requires Valid()
      modifies this`filter
      ensures Valid()
      ensures filter == value
    {
      filter := value;
    }

    /** `filterEmails(emails)` with the current filter and sets. */
    function VisibleEmails(emails: seq<Mailbox.Email>): (r: seq<Mailbox.Email>)
      reads this
      ensures filter == "favorites" ==> forall e :: e in r <==> e in emails && e.id in favoriteEmails
      ensures filter == "read" ==> forall e :: e in r <==> e in emails && e.id in readEmails
      ensures filter == "unread" ==> forall e :: e in r <==> e in emails && e.id !in readEmails
      ensures filter !in {"favorites", "read", "unread"} ==> r == emails
      ensures r == Mailbox.FilterEmails(emails, filter, Elements(favoriteEmails), Elements(readEmails))
    {
      Mailbox.FilterEmails(emails, filter, Elements(favoriteEmails), Elements(readEmails))
    }

    /**
     * `toggleFavorite(id)`: flips `id`'s membership and nothing else, then
     * saves the favourites as the list `[...favoriteEmails]`. The read set and
     * its entry are untouched.
     */
    method ToggleFavorite(id: Mailbox.Id)
      requires Valid()
      modifies this`favoriteEmails, this`storedFavorites
      ensures Valid()
      ensures favoriteEmails == Mailbox.Toggled(old(favoriteEmails), id)
      ensures storedFavorites == Some(favoriteEmails)
    {
      if id in favoriteEmails {
        favoriteEmails := Delete(favoriteEmails, id);
      } else {
        favoriteEmails := Add(favoriteEmails, id);
      }
      storedFavorites := Some(favoriteEmails);
    }

    /**
     * `markAsRead(id)`: adds `id`, removes nothing (a second call changes
     * nothing), then saves the read set as the list `[...readEmails]`.
     */
    method MarkAsRead(id: Mailbox.Id)
      requires Valid()
      modifies this`readEmails, this`storedRead
      ensures Valid()
      ensures readEmails == Add(old(readEmails), id)
      ensures storedRead == Some(readEmails)
    {
      readEmails := Add(readEmails, id);
      storedRead := Some(readEmails);
    }
  }

  /**
   * Loading the page again: a new module state over the same local storage,
   * on which the load handler runs `loadPersistedData`. Each set saved by
   * `toggleFavorite` or `markAsRead` comes back exactly as it was.
   */
  method ReloadPage(inbox: Inbox) returns (page: Inbox)
    ensures fresh(page) && page.Valid()
    ensures page.storedFavorites == inbox.storedFavorites && page.storedRead == inbox.storedRead
    ensures inbox.Valid() && inbox.storedFavorites == Some(inbox.favoriteEmails) ==>
              page.favoriteEmails == inbox.favoriteEmails
    ensures inbox.Valid() && inbox.storedRead == Some(inbox.readEmails) ==>
              page.readEmails == inbox.readEmails
  {
    page := new Inbox(inbox.storedFavorites, inbox.storedRead);
    page.LoadPersistedData();
    if inbox.Valid() {
      FromListOfDistinct(inbox.favoriteEmails);
      FromListOfDistinct(inbox.readEmails);
    }
  }
}
