/** The application object: the search behind the Pokémon list (a name
    filter, the count of all matches and one page of them in id order) and
    the guard that lets only one background sync run at a time. */
module App {
  import opened Wrappers
  import opened Text
  import opened Collections
  import opened Models
  import opened Api
  import opened Database
  import opened SyncEngine
  import opened MainWindow

  // ---------------------------------------------------------------------
  // Name matching

  /** SQL `s LIKE p` as SQLite evaluates it: '%' matches any run of
      characters, '_' any one character, every other character itself. */
  predicate Like(s: string, p: string)
    decreases |s| + |p|
  {
    if p == [] then s == []
    else if p[0] == '%' then Like(s, p[1..]) || (s != [] && Like(s[1..], p))
    else s != [] && (p[0] == '_' || s[0] == p[0]) && Like(s[1..], p[1..])
  }

  /** `Pokemon.name.ilike(f"%{term}%")`: both sides lower-cased, then LIKE. */
  predicate NameMatches(name: string, term: string) {
    Like(Lower(name), Lower("%" + term + "%"))
  }

  /** A term without LIKE wildcards. */
  predicate NoWildcards(t: string) {
    '%' !in t && '_' !in t
  }

  /** '%' matches everything. */
  lemma {:induction false} LikeAny(s: string)
    ensures Like(s, "%")
    decreases |s|
  {
    assert "%"[1..] == [];
    if s != [] {
      LikeAny(s[1..]);
    }
  }

  /** A wildcard-free text followed by '%' matches exactly the strings it
      begins. */
  lemma {:induction false} LikePrefix(s: string, t: string)
    requires NoWildcards(t)
    ensures Like(s, t + "%") <==> |t| <= |s| && s[..|t|] == t
    decreases |t|
  {
    if t == [] {
      assert t + "%" == "%";
      LikeAny(s);
    } else {
      assert (t + "%")[0] == t[0] && (t + "%")[1..] == t[1..] + "%";
      assert t[0] in t;
      if s != [] {
        LikePrefix(s[1..], t[1..]);
        if |t| <= |s| {
          assert s[..|t|] == [s[0]] + s[1..][..|t| - 1];
          assert t == [t[0]] + t[1..];
        }
      }
    }
  }

  /** A leading '%' lets the rest match at any position. */
  lemma {:induction false} LikeLeadingPercent(s: string, q: string)
    ensures Like(s, "%" + q) <==> exists i :: 0 <= i <= |s| && Like(s[i..], q)
    decreases |s|
  {
    var p := "%" + q;
    assert p[0] == '%' && p[1..] == q;
    assert s[0..] == s;
    if s != [] {
      LikeLeadingPercent(s[1..], q);
      if exists i :: 0 <= i <= |s| && Like(s[i..], q) {
        var i :| 0 <= i <= |s| && Like(s[i..], q);
        if i > 0 {
          assert s[1..][i - 1..] == s[i..];
        }
      }
      if exists i :: 0 <= i <= |s[1..]| && Like(s[1..][i..], q) {
        var i :| 0 <= i <= |s[1..]| && Like(s[1..][i..], q);
        assert s[i + 1..] == s[1..][i..];
      }
    }
  }

  /** Lower-casing keeps the wildcards where they are. */
  lemma LowerPattern(term: string)
    ensures Lower("%" + term + "%") == "%" + Lower(term) + "%"
    ensures NoWildcards(term) ==> NoWildcards(Lower(term))
  {
    var p := "%" + term + "%";
    assert forall k :: 0 <= k < |p| ==> Lower(p)[k] == ("%" + Lower(term) + "%")[k];
    if NoWildcards(term) {
      forall k | 0 <= k < |term| ensures Lower(term)[k] != '%' && Lower(term)[k] != '_' {
        assert term[k] in term;
      }
    }
  }

  /** For a term without wildcards the filter is a case-insensitive
      substring test, the search box's promise. */
  lemma NameMatchesIsSubstring(name: string, term: string)
    requires NoWildcards(term)
    ensures NameMatches(name, term) <==> IsSubstring(Lower(term), Lower(name))
  {
    LowerPattern(term);
    LikeContains(Lower(name), Lower(term));
  }

  /** `%t%` matches exactly the strings `t` occurs in. */
  lemma LikeContains(s: string, t: string)
    requires NoWildcards(t)
    ensures Like(s, "%" + t + "%") <==> IsSubstring(t, s)
  {
    assert "%" + t + "%" == "%" + (t + "%");
    LikeLeadingPercent(s, t + "%");
    if Like(s, "%" + t + "%") {
      var i :| 0 <= i <= |s| && Like(s[i..], t + "%");
      LikePrefix(s[i..], t);
      assert s[i..][..|t|] == s[i..i + |t|];
      assert OccursAt(s, t, i);
    }
    if IsSubstring(t, s) {
      var i :| 0 <= i <= |s| && OccursAt(s, t, i);
      LikePrefix(s[i..], t);
      assert s[i..][..|t|] == s[i..i + |t|];
    }
  }

  // ---------------------------------------------------------------------
  // The query

  /** The ids whose name the term matches; every id without a term. */
  function Matches(db: Db, term: string): (ids: set<int>)
    ensures ids <= db.pokemon.Keys
    ensures term == "" ==> ids == db.pokemon.Keys
    ensures forall id :: id in db.pokemon && term != "" ==> (id in ids <==> NameMatches(db.pokemon[id].name, term))
  {
    if term == "" then db.pokemon.Keys
    else set id | id in db.pokemon && NameMatches(db.pokemon[id].name, term)
  }

  /** The first row an OFFSET skips to: a negative offset counts as 0, as
      SQLite treats it. */
  function Start(offset: int): nat {
    if offset < 0 then 0 else offset
  }

  /** `.offset(offset).limit(limit)` on a list of ids: at most `limit` of
      them, in order, from position `Start(offset)` on. */
  function Window(s: seq<int>, offset: int, limit: nat): (r: seq<int>)
    ensures |r| <= limit
    ensures forall k :: 0 <= k < |r| ==> Start(offset) + k < |s| && r[k] == s[Start(offset) + k]
    ensures forall k :: 0 <= k < |r| ==> r[k] in s
    ensures Ascending(s) ==> Ascending(r)
    ensures 0 <= offset && offset + limit <= |s| ==> |r| == limit
    ensures 0 <= offset < |s| && limit > 0 ==> r != []
    ensures offset >= |s| ==> r == []
  {
    var lo := Start(offset);
    if lo >= |s| then []
    else s[lo..if lo + limit > |s| then |s| else lo + limit]
  }

  datatype SearchResult = SearchResult(rows: seq<(int, PokemonRow)>, totalCount: nat)

  /** The rows of the listed ids, in the same order. */
  function RowsOf(db: Db, ids: seq<int>): (rows: seq<(int, PokemonRow)>)
    requires forall k :: 0 <= k < |ids| ==> ids[k] in db.pokemon
    ensures |rows| == |ids|
    ensures forall k :: 0 <= k < |rows| ==> rows[k].0 == ids[k] && rows[k].1 == db.pokemon[ids[k]]
  {
    seq(|ids|, k requires 0 <= k < |ids| => (ids[k], db.pokemon[ids[k]]))
  }

  /** The ids of the rows of a result. */
  function IdsOf(rows: seq<(int, PokemonRow)>): (ids: seq<int>)
    ensures |ids| == |rows| && forall k :: 0 <= k < |rows| ==> ids[k] == rows[k].0
  {
    seq(|rows|, k requires 0 <= k < |rows| => rows[k].0)
  }

  /** `_get_pokemon_from_db_in_thread`: the count of all matches, and the
      matches in ascending id order, cut to the window. */
  function SearchQuery(db: Db, term: string, offset: int, limit: nat): (r: SearchResult)
    ensures r.totalCount == |Matches(db, term)|
    ensures |r.rows| <= limit
    ensures forall k :: 0 <= k < |r.rows| ==>
      r.rows[k].0 in Matches(db, term) && r.rows[k].0 in db.pokemon && r.rows[k].1 == db.pokemon[r.rows[k].0]
    ensures Ascending(IdsOf(r.rows))
    ensures IdsOf(r.rows) == Window(SortedIds(Matches(db, term)), offset, limit)
  {
    var matches := Matches(db, term);
    var ids := SortedIds(matches);
    SortedIdsAscending(matches);
    var w := Window(ids, offset, limit);
    forall k | 0 <= k < |w| ensures w[k] in matches {
      assert w[k] in ids;
    }
    var rows := RowsOf(db, w);
    assert IdsOf(rows) == w;
    SearchResult(rows, |matches|)
  }

  /** What `_perform_search` asks for: the lower-cased text of the search
      box, the offset of the current page and one page of rows. */
  datatype SearchRequest = SearchRequest(term: string, offset: int, limit: nat)

  function RequestFor(page: int, entryText: string): (req: SearchRequest)
    ensures req.limit == ItemsPerPage && req.term == Lower(entryText)
    ensures page >= 1 ==> req.offset >= 0 && req.offset / ItemsPerPage == page - 1 && req.offset % ItemsPerPage == 0
  {
    SearchRequest(Lower(entryText), (page - 1) * ItemsPerPage, ItemsPerPage)
  }

  /** The list shown for a page of the search box. */
  function PerformSearch(db: Db, page: int, entryText: string): SearchResult {
    var req := RequestFor(page, entryText);
    SearchQuery(db, req.term, req.offset, req.limit)
  }

  /** Every match is listed on exactly the page its rank puts it on, and
      that page is one the pagination buttons can reach. */
  lemma MatchOnItsPage(db: Db, entryText: string, i: int)
    requires 0 <= i < |Matches(db, Lower(entryText))|
    ensures var page := i / ItemsPerPage + 1;
      var r := PerformSearch(db, page, entryText);
      ValidPage(page, r.totalCount) &&
      0 <= i % ItemsPerPage < |r.rows| && r.rows[i % ItemsPerPage].0 == SortedIds(Matches(db, Lower(entryText)))[i]
  {
    var page := i / ItemsPerPage + 1;
    var req := RequestFor(page, entryText);
    var ids := SortedIds(Matches(db, req.term));
    RankPage(i, |ids|);
    var q := i % ItemsPerPage;
    var off := i - q;
    assert req.offset == off && off + q == i;
    WindowAt(ids, off, q, ItemsPerPage);
    var r := PerformSearch(db, page, entryText);
    assert IdsOf(r.rows) == Window(ids, off, ItemsPerPage);
    assert r.rows[q].0 == IdsOf(r.rows)[q];
  }

  /** The page rank `i` falls on is a page of a list of `n` items, and it
      starts at `i` rounded down to a multiple of the page size. */
  lemma RankPage(i: int, n: nat)
    requires 0 <= i < n
    ensures ValidPage(i / ItemsPerPage + 1, n)
    ensures (i / ItemsPerPage + 1 - 1) * ItemsPerPage == i - i % ItemsPerPage
  {
    assert i / ItemsPerPage < TotalPages(n);
  }

  /** Position `k` of a window starting at `off` is element `off + k`. */
  lemma WindowAt(s: seq<int>, off: int, k: int, limit: nat)
    requires 0 <= off && 0 <= k < limit && off + k < |s|
    ensures k < |Window(s, off, limit)| && Window(s, off, limit)[k] == s[off + k]
  {
    var w := Window(s, off, limit);
    assert Start(off) == off;
    assert |w| == (if off + limit > |s| then |s| else off + limit) - off;
  }

  /** A page past the last one is empty. */
  lemma PagePastTheEnd(db: Db, page: int, entryText: string)
    requires page > TotalPages(|Matches(db, Lower(entryText))|)
    ensures PerformSearch(db, page, entryText).rows == []
  {
    var n := |Matches(db, Lower(entryText))|;
    var req := RequestFor(page, entryText);
    assert req.offset >= TotalPages(n) * ItemsPerPage;
  }

  // ---------------------------------------------------------------------
  // The sync guard

  /** A desktop notification: title and body. */
  datatype Notification = Notification(title: string, body: string)

  const AlreadySyncing := Notification("Sync in Progress", "The database is already being updated.")
  const SyncStarted := Notification("Update Started", "Checking for new Pokémon updates...")
  const SyncComplete := Notification("Update Complete", "Pokémon database has been updated.")

  /** The application: the `is_syncing` flag, the notifications sent so far
      and the store the sync writes to. */
  class Application {
    var isSyncing: bool
    var notifications: seq<Notification>
    const store: Store

    constructor (store: Store)
      ensures !isSyncing && notifications == [] && this.store == store
    {
      isSyncing := false;
      notifications := [];
      this.store := store;
    }

    /** `start_background_sync` up to the start of the thread: refused
        with a notification while a sync runs, else the flag is set. */
    method StartBackgroundSync() returns (started: bool)
      modifies this
      ensures started <==> !old(isSyncing)
      ensures isSyncing
      ensures notifications == old(notifications) + [if started then SyncStarted else AlreadySyncing]
    {
      if isSyncing {
        notifications := notifications + [AlreadySyncing];
        return false;
      }
      isSyncing := true;
      notifications := notifications + [SyncStarted];
      started := true;
    }

    /** The thread body `run_sync`: the sync in the background with a
        progress callback, the completion notification, then the flag
        cleared and the list refreshed when the main window is shown. */
    method RunSync(remote: Remote, now: int, mainWindowShown: bool) returns (events: seq<Progress>, refresh: bool)
      requires store.working == store.committed
      modifies this, store
      ensures store.committed == SyncSpec(old(store.working), remote, true, true, now).db
      ensures store.working == store.committed
      ensures events == SyncSpec(old(store.working), remote, true, true, now).events
      ensures !isSyncing
      ensures notifications == old(notifications) + [SyncComplete]
      ensures refresh == mainWindowShown
    {
      events := store.SyncDatabase(remote, true, true, now);
      notifications := notifications + [SyncComplete];
      isSyncing := false;
      refresh := mainWindowShown;
    }
  }
}
