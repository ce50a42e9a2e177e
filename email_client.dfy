/**
 * The first version of the email client: module-wide page counter,
 * favourite and read sets and filter mode, changed in place by the page
 * buttons, the filter control, the favourite button and opening a mail.
 * Nothing is persisted.
 */
module EmailClient {
  import opened Decimal
  import opened OrderedSet
  import Mailbox

  /** What `updatePaginationControls` writes into the page. */
  datatype Controls = Controls(pageInfo: string, prevDisabled: bool, nextDisabled: bool)

  class Inbox {
    var currentPage: nat
    var totalPages: nat
    var favoriteEmails: seq<Mailbox.Id>
    var readEmails: seq<Mailbox.Id>
    var filter: string

    /** The page counter stays within the pages; the id sets hold each id once. */
    ghost predicate Valid()
      reads this
    {
      && 1 <= currentPage <= totalPages
      && Distinct(favoriteEmails)
      && Distinct(readEmails)
    }

    /** The initial module state: page 1 of 2, no favourites, nothing read, filter `"all"`. */
    constructor ()
      ensures Valid()
      ensures currentPage == 1 && totalPages == 2
      ensures favoriteEmails == [] && readEmails == [] && filter == "all"
    {
      currentPage, totalPages := 1, 2;
      favoriteEmails, readEmails := [], [];
      filter := "all";
    }

    /** The Next button: moves one page on unless already on the last page. */
    method NextPage()
      requires Valid()
      modifies this`currentPage
      ensures Valid()
      ensures currentPage == if old(currentPage) < totalPages then old(currentPage) + 1 else old(currentPage)
    {
      if currentPage < totalPages {
        currentPage := currentPage + 1;
      }
    }

    /** The Prev button: moves one page back unless already on page 1. */
    method PrevPage()
      requires Valid()
      modifies this`currentPage
      ensures Valid()
      ensures currentPage == if old(currentPage) > 1 then old(currentPage) - 1 else old(currentPage)
    {
      if currentPage > 1 {
        currentPage := currentPage - 1;
      }
    }

    /**
     * `updatePaginationControls`: Prev is disabled exactly when the Prev
     * handler would not move, and Next exactly when the Next handler would not.
     */
    function PaginationControls(): (c: Controls)
      reads this
      requires Valid()
      ensures c.prevDisabled <==> !(currentPage > 1)
      ensures c.nextDisabled <==> !(currentPage < totalPages)
      ensures c.pageInfo == "Page " + Show(currentPage) + " of " + Show(totalPages)
    {
      Controls("Page " + Show(currentPage) + " of " + Show(totalPages),
               currentPage == 1, currentPage == totalPages)
    }

    /** The filter control sets the mode the list is shown in. */
    method SetFilter(value: string)
      requires Valid()
      modifies this`filter
      ensures Valid()
      ensures filter == value
    {
      filter := value;
    }

    /** `filterEmails(emails)` with the current filter and sets. */
    function VisibleEmails(emails: seq<Mailbox.Email>): (r: seq<Mailbox.Email>)
      reads this
      ensures filter == "favorites" ==> forall e :: e in r <==> e in emails && e.id in favoriteEmails
      ensures filter == "read" ==> forall e :: e in r <==> e in emails && e.id in readEmails
      ensures filter == "unread" ==> forall e :: e in r <==> e in emails && e.id !in readEmails
      ensures filter !in {"favorites", "read", "unread"} ==> r == emails
      ensures r == Mailbox.FilterEmails(emails, filter, Elements(favoriteEmails), Elements(readEmails))
    {
      Mailbox.FilterEmails(emails, filter, Elements(favoriteEmails), Elements(readEmails))
    }

    /** `toggleFavorite(id)`: flips `id`'s membership and nothing else; the read set is untouched. */
    method ToggleFavorite(id: Mailbox.Id)
      requires Valid()
      modifies this`favoriteEmails
      ensures Valid()
      ensures favoriteEmails == Mailbox.Toggled(old(favoriteEmails), id)
    {
      if id in favoriteEmails {
        favoriteEmails := Delete(favoriteEmails, id);
      } else {
        favoriteEmails := Add(favoriteEmails, id);
      }
    }

    /** `markAsRead(id)`: adds `id`, removes nothing; a second call changes nothing. */
    method MarkAsRead(id: Mailbox.Id)
      requires Valid()
      modifies this`readEmails
      ensures Valid()
      ensures readEmails == Add(old(readEmails), id)
    {
      readEmails := Add(readEmails, id);
    }
  }
}
