/** The main window's pagination: the current page and the number of
    Pokémon the last search matched, the page buttons and what each of
    them does. */
module MainWindow {
  import opened Text

  /** `ITEMS_PER_PAGE` */
  const ItemsPerPage: int := 50

  /** `(total_pokemon_count + items_per_page - 1) // items_per_page`: the
      number of pages needed to show `count` items, each item on one page
      and no page left empty; 0 for no items. */
  function TotalPages(count: nat): (n: nat)
    ensures (n - 1) * ItemsPerPage < count <= n * ItemsPerPage
    ensures count == 0 <==> n == 0
  {
    (count + ItemsPerPage - 1) / ItemsPerPage
  }

  /** The denominator of the page label, `max(1, total_pages)`: at least 1,
      and the number of pages whenever there is one. */
  function LabelDenominator(count: nat): (d: int)
    ensures d >= 1
    ensures TotalPages(count) >= 1 ==> d == TotalPages(count)
    ensures count == 0 ==> d == 1
  {
    if 1 > TotalPages(count) then 1 else TotalPages(count)
  }

  /** `f"{current_page} / {max(1, total_pages)}"` */
  function PageLabel(page: int, count: nat): string {
    IntToString(page) + " / " + IntToString(LabelDenominator(count))
  }

  datatype Button = First | Prev | Next | Last

  /** Whether a button is sensitive: first and previous past page 1, next
      and last before the last page. */
  predicate Enabled(b: Button, page: int, count: nat) {
    match b
    case First => page > 1
    case Prev => page > 1
    case Next => page < TotalPages(count)
    case Last => page < TotalPages(count)
  }

  /** The page a handler moves to. */
  function Press(b: Button, page: int, count: nat): int {
    match b
    case First => 1
    case Prev => if page > 1 then page - 1 else page
    case Next => if page < TotalPages(count) then page + 1 else page
    case Last => TotalPages(count)
  }

  /** A page one of the pages of the list, or page 1 when the list is empty. */
  predicate ValidPage(page: int, count: nat) {
    1 <= page <= LabelDenominator(count)
  }

  /** On a valid page a button is enabled exactly when pressing it changes
      the page (and so refreshes the list); the last-page button is the
      exception on an empty list. */
  lemma EnabledIffMoves(b: Button, page: int, count: nat)
    requires ValidPage(page, count)
    requires b == Last ==> count > 0
    ensures Enabled(b, page, count) <==> Press(b, page, count) != page
  {
  }

  /** Pressing an enabled button keeps the page among the list's pages. */
  lemma EnabledKeepsValid(b: Button, page: int, count: nat)
    requires ValidPage(page, count) && Enabled(b, page, count)
    ensures ValidPage(Press(b, page, count), count)
  {
  }

  /** The next and previous buttons undo each other. */
  lemma NextThenPrev(page: int, count: nat)
    requires Enabled(Next, page, count) && page >= 1
    ensures Press(Prev, Press(Next, page, count), count) == page
  {
  }

  /** `total_pages` is 0 on an empty list, so the last-page handler moves
      to page 0 there; its button is disabled then. */
  lemma LastOnEmptyList(page: int)
    ensures Press(Last, page, 0) == 0
    ensures !Enabled(Last, page, 0) <==> page >= 0
  {
    assert TotalPages(0) == 0;
  }

  /** Pressing the next button as long as it is enabled reaches the last
      page, one page at a time. */
  lemma {:induction false} NextReachesLast(page: int, count: nat, steps: nat)
    requires 1 <= page && page + steps == TotalPages(count)
    ensures PressTimes(Next, page, count, steps) == TotalPages(count)
    ensures PressTimes(Next, page, count, steps) == Press(Last, page, count)
    decreases steps
  {
    if steps > 0 {
      NextReachesLast(page + 1, count, steps - 1);
    }
  }

  /** `b` pressed `n` times. */
  function PressTimes(b: Button, page: int, count: nat, n: nat): int
    decreases n
  {
    if n == 0 then page else PressTimes(b, Press(b, page, count), count, n - 1)
  }

  /** What `_update_pagination_ui` puts on screen. */
  datatype PaginationUi = PaginationUi(text: string, first: bool, prev: bool, next: bool, last: bool)

  /** The pagination fields of the main window. */
  class Pagination {
    /** `current_page` */
    var currentPage: int
    /** `total_pokemon_count` */
    var totalCount: nat

    constructor ()
      ensures currentPage == 1 && totalCount == 0
    {
      currentPage := 1;
      totalCount := 0;
    }

    /** `_update_pagination_ui` */
    method UpdatePaginationUi() returns (ui: PaginationUi)
      ensures ui.text == PageLabel(currentPage, totalCount)
      ensures ui.first == Enabled(First, currentPage, totalCount) && ui.prev == Enabled(Prev, currentPage, totalCount)
      ensures ui.next == Enabled(Next, currentPage, totalCount) && ui.last == Enabled(Last, currentPage, totalCount)
    {
      var totalPages := (totalCount + ItemsPerPage - 1) / ItemsPerPage;
      var shown := if 1 > totalPages then 1 else totalPages;
      ui := PaginationUi(IntToString(currentPage) + " / " + IntToString(shown),
        currentPage > 1, currentPage > 1, currentPage < totalPages, currentPage < totalPages);
    }

    /** `update_pokemon_list`: the count of the new search result, then the
        pagination refreshed; the page is kept as it was. */
    method UpdatePokemonList(count: nat) returns (ui: PaginationUi)
      modifies this
      ensures totalCount == count && currentPage == old(currentPage)
      ensures ui.text == PageLabel(currentPage, totalCount)
      ensures ui.first == Enabled(First, currentPage, totalCount) && ui.prev == Enabled(Prev, currentPage, totalCount)
      ensures ui.next == Enabled(Next, currentPage, totalCount) && ui.last == Enabled(Last, currentPage, totalCount)
    {
      totalCount := count;
      ui := UpdatePaginationUi();
    }

    /** `on_first_page`; `refresh` is the call of `on_search_changed`. */
    method OnFirstPage() returns (refresh: bool)
      modifies this
      ensures currentPage == Press(First, old(currentPage), totalCount) && totalCount == old(totalCount)
      ensures refresh <==> currentPage != old(currentPage)
    {
      refresh := false;
      if currentPage != 1 {
        currentPage := 1;
        refresh := true;
      }
    }

    /** `on_prev_page` */
    method OnPrevPage() returns (refresh: bool)
      modifies this
      ensures currentPage == Press(Prev, old(currentPage), totalCount) && totalCount == old(totalCount)
      ensures refresh <==> currentPage != old(currentPage)
    {
      refresh := false;
      if currentPage > 1 {
        currentPage := currentPage - 1;
        refresh := true;
      }
    }

    /** `on_next_page` */
    method OnNextPage() returns (refresh: bool)
      modifies this
      ensures currentPage == Press(Next, old(currentPage), totalCount) && totalCount == old(totalCount)
      ensures refresh <==> currentPage != old(currentPage)
    {
      refresh := false;
      var totalPages := (totalCount + ItemsPerPage - 1) / ItemsPerPage;
      if currentPage < totalPages {
        currentPage := currentPage + 1;
        refresh := true;
      }
    }

    /** `on_last_page` */
    method OnLastPage() returns (refresh: bool)
      modifies this
      ensures currentPage == Press(Last, old(currentPage), totalCount) && totalCount == old(totalCount)
      ensures refresh <==> currentPage != old(currentPage)
    {
      refresh := false;
      var totalPages := (totalCount + ItemsPerPage - 1) / ItemsPerPage;
      if currentPage != totalPages {
        currentPage := totalPages;
        refresh := true;
      }
    }
  }
}
