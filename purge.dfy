/** The LinkCal event purger (utils/meetings/deleteLinkCalEvents.ts and its
    older copy utils/deleteLinkCalEvents.ts, which behave the same): open the
    account, then page through the calendar and delete every event whose
    title mentions "linkcal"; `deleteAccount` removes the account row only
    after a purge that returned normally. The calendar's listing pages and
    the delete calls are modelled by their answers. */
module Purge {
  import opened Js
  import opened Seqs
  import opened Accounts
  import opened TokenRefresh

  const Marker: string := "linkcal"

  /** A listed event: its id and its `summary` (Google) or `subject` (Microsoft). */
  datatype CalendarItem = CalendarItem(id: string, title: Option<string>)

  /** One listing request: it threw, or it answered with `items` / `value`
      (possibly missing) and `nextPageToken` / `@odata.nextLink`. */
  datatype PageAnswer = PageFailed | Page(items: Option<seq<CalendarItem>>, next: Option<string>)

  /** `title && title.toLowerCase().includes("linkcal")`. */
  predicate IsPurgeTarget(e: CalendarItem) {
    Truthy(e.title) && Contains(Lower(e.title.value), Marker)
  }

  /** `response.data.items || []` of page `q`; a page that was not answered lists nothing. */
  function ItemsAt(pages: seq<PageAnswer>, q: nat): seq<CalendarItem> {
    if q < |pages| && pages[q].Page? then pages[q].items.GetOr([]) else []
  }

  /** Page `q` was answered and names a next page, so the loop goes on. */
  predicate Continues(pages: seq<PageAnswer>, q: int) {
    0 <= q < |pages| && pages[q].Page? && Truthy(pages[q].next)
  }

  /** The page on which the `do … while (next)` loop stops, starting from
      page `p`: the first page that throws, that has no next-page cursor, or
      that the calendar does not answer at all. */
  function StopPage(pages: seq<PageAnswer>, p: nat): (n: nat)
    ensures p <= n
    ensures forall q :: p <= q < n ==> Continues(pages, q)
    ensures !Continues(pages, n)
    decreases |pages| - p
  {
    if !Continues(pages, p) then p
    else StopPage(pages, p + 1)
  }

  /** The purge throws when the page it stops on was not answered. */
  predicate ListingFails(pages: seq<PageAnswer>) {
    var n := StopPage(pages, 0);
    n >= |pages| || pages[n].PageFailed?
  }

  /** How many pages had their events processed. */
  function PagesRead(pages: seq<PageAnswer>): nat {
    if ListingFails(pages) then StopPage(pages, 0) else StopPage(pages, 0) + 1
  }

  /** The ids the page loop tries to delete, in order: the marked events. */
  function TargetIds(items: seq<CalendarItem>): (r: seq<string>)
    ensures |r| <= |items|
  {
    if items == [] then []
    else TargetIds(items[..|items| - 1]) + (if IsPurgeTarget(items[|items| - 1]) then [items[|items| - 1].id] else [])
  }

  /** The ids whose delete call succeeded; `deleteOk(p, j)` answers the
      delete of the `j`-th event of page `p`. */
  function DeletedIds(items: seq<CalendarItem>, p: nat, deleteOk: (nat, nat) -> bool): seq<string> {
    if items == [] then []
    else DeletedIds(items[..|items| - 1], p, deleteOk) +
         (if IsPurgeTarget(items[|items| - 1]) && deleteOk(p, |items| - 1) then [items[|items| - 1].id] else [])
  }

  /** `totalProcessed` after `n` pages: the sum of their sizes. */
  function ProcessedUpTo(pages: seq<PageAnswer>, n: nat): nat {
    if n == 0 then 0 else ProcessedUpTo(pages, n - 1) + |ItemsAt(pages, n - 1)|
  }

  function AttemptedUpTo(pages: seq<PageAnswer>, n: nat): seq<string> {
    if n == 0 then [] else AttemptedUpTo(pages, n - 1) + TargetIds(ItemsAt(pages, n - 1))
  }

  function DeletedUpTo(pages: seq<PageAnswer>, deleteOk: (nat, nat) -> bool, n: nat): seq<string> {
    if n == 0 then [] else DeletedUpTo(pages, deleteOk, n - 1) + DeletedIds(ItemsAt(pages, n - 1), n - 1, deleteOk)
  }

  /** The delete calls of one page are exactly the marked events, in order. */
  lemma {:induction false} TargetIdsAreFiltered(items: seq<CalendarItem>)
    ensures TargetIds(items) == MapSeq(Filter(items, IsPurgeTarget), (e: CalendarItem) => e.id)
  {
    if items != [] {
      var n := |items| - 1;
      TargetIdsAreFiltered(items[..n]);
      assert items == items[..n] + [items[n]];
      FilterConcat(items[..n], [items[n]], IsPurgeTarget);
      MapSeqConcat(Filter(items[..n], IsPurgeTarget), Filter([items[n]], IsPurgeTarget), (e: CalendarItem) => e.id);
    }
  }

  /** Successful deletes are among the attempted ones, so a page never
      deletes more events than it attempts, nor attempts more than it lists. */
  lemma {:induction false} DeletedWithinTargets(items: seq<CalendarItem>, p: nat, deleteOk: (nat, nat) -> bool)
    ensures |DeletedIds(items, p, deleteOk)| <= |TargetIds(items)| <= |items|
    ensures forall x :: x in DeletedIds(items, p, deleteOk) ==> x in TargetIds(items)
  {
    if items != [] {
      DeletedWithinTargets(items[..|items| - 1], p, deleteOk);
    }
  }

  /** `totalDeleted ≤ totalProcessed` after any number of pages. */
  lemma {:induction false} DeletedWithinProcessed(pages: seq<PageAnswer>, deleteOk: (nat, nat) -> bool, n: nat)
    ensures |DeletedUpTo(pages, deleteOk, n)| <= |AttemptedUpTo(pages, n)| <= ProcessedUpTo(pages, n)
    ensures forall x :: x in DeletedUpTo(pages, deleteOk, n) ==> x in AttemptedUpTo(pages, n)
  {
    if n > 0 {
      DeletedWithinProcessed(pages, deleteOk, n - 1);
      DeletedWithinTargets(ItemsAt(pages, n - 1), n - 1, deleteOk);
    }
  }

  /** With every delete call succeeding, everything attempted is deleted. */
  lemma {:induction false} AllDeletesSucceed(items: seq<CalendarItem>, p: nat, deleteOk: (nat, nat) -> bool)
    requires forall j :: 0 <= j < |items| ==> deleteOk(p, j)
    ensures DeletedIds(items, p, deleteOk) == TargetIds(items)
  {
    if items != [] {
      AllDeletesSucceed(items[..|items| - 1], p, deleteOk);
    }
  }

  /** The delete calls of one page go to its marked events, and to all of them. */
  lemma TargetIdsMembership(items: seq<CalendarItem>)
    ensures forall x :: x in TargetIds(items) <==> exists e :: e in items && IsPurgeTarget(e) && e.id == x
  {
    forall x ensures x in TargetIds(items) <==> exists e :: e in items && IsPurgeTarget(e) && e.id == x {
      if x in TargetIds(items) {
        TargetIdSound(items, x);
      }
      if exists e :: e in items && IsPurgeTarget(e) && e.id == x {
        var e :| e in items && IsPurgeTarget(e) && e.id == x;
        TargetIdComplete(items, e);
      }
    }
  }

  lemma TargetIdSound(items: seq<CalendarItem>, x: string)
    requires x in TargetIds(items)
    ensures exists e :: e in items && IsPurgeTarget(e) && e.id == x
  {
    TargetIdsAreFiltered(items);
    var kept := Filter(items, IsPurgeTarget);
    var i :| 0 <= i < |kept| && kept[i].id == x;
    assert kept[i] in items && IsPurgeTarget(kept[i]);
  }

  lemma TargetIdComplete(items: seq<CalendarItem>, e: CalendarItem)
    requires e in items && IsPurgeTarget(e)
    ensures e.id in TargetIds(items)
  {
    TargetIdsAreFiltered(items);
    var kept := Filter(items, IsPurgeTarget);
    var j :| 0 <= j < |kept| && kept[j] == e;
    assert TargetIds(items)[j] == e.id;
  }

  /** Only marked events of pages actually read get a delete call, and every
      marked event of such a page gets one. */
  lemma {:induction false} AttemptedAreMarked(pages: seq<PageAnswer>, n: nat)
    ensures forall x :: x in AttemptedUpTo(pages, n) <==>
              exists q, e :: 0 <= q < n && e in ItemsAt(pages, q) && IsPurgeTarget(e) && e.id == x
  {
    if n > 0 {
      AttemptedAreMarked(pages, n - 1);
      TargetIdsMembership(ItemsAt(pages, n - 1));
      forall x ensures x in AttemptedUpTo(pages, n) <==>
                       exists q, e :: 0 <= q < n && e in ItemsAt(pages, q) && IsPurgeTarget(e) && e.id == x {
        if exists q, e :: 0 <= q < n && e in ItemsAt(pages, q) && IsPurgeTarget(e) && e.id == x {
          var q, e :| 0 <= q < n && e in ItemsAt(pages, q) && IsPurgeTarget(e) && e.id == x;
          if q < n - 1 {
            assert x in AttemptedUpTo(pages, n - 1);
          } else {
            assert x in TargetIds(ItemsAt(pages, n - 1));
          }
        }
      }
    }
  }

  /** `deleteGoogleCalendarEvents` / `deleteMicrosoftCalendarEvents`: a
      `do … while` over the pages with an inner loop over the page's events.
      A failed delete is logged and the loop goes on; a failed page request
      throws out of the purge. The totals are the logged counters. */
  method PurgePages(pages: seq<PageAnswer>, deleteOk: (nat, nat) -> bool)
    returns (threw: bool, totalProcessed: nat, totalDeleted: nat, attempted: seq<string>, deleted: seq<string>)
    ensures threw == ListingFails(pages)
    ensures totalProcessed == ProcessedUpTo(pages, PagesRead(pages))
    ensures attempted == AttemptedUpTo(pages, PagesRead(pages))
    ensures deleted == DeletedUpTo(pages, deleteOk, PagesRead(pages))
    ensures totalDeleted == |deleted| <= totalProcessed
  {
    totalProcessed, totalDeleted := 0, 0;
    attempted, deleted := [], [];
    var p := 0;
    var more := true;
    while more
      invariant p <= |pages|
      invariant more ==> StopPage(pages, p) == StopPage(pages, 0)
      invariant !more ==> 1 <= p && StopPage(pages, 0) == p - 1 && !ListingFails(pages)
      invariant totalProcessed == ProcessedUpTo(pages, p)
      invariant attempted == AttemptedUpTo(pages, p)
      invariant deleted == DeletedUpTo(pages, deleteOk, p)
      invariant totalDeleted == |deleted|
      decreases |pages| - p + (if more then 1 else 0)
    {
      if p >= |pages| || pages[p].PageFailed? {
        // the request throws, and the error leaves the purge
        threw := true;
        DeletedWithinProcessed(pages, deleteOk, p);
        return;
      }
      var items := pages[p].items.GetOr([]);
      assert items == ItemsAt(pages, p);
      totalProcessed := totalProcessed + |items|;
      var attemptedHere, deletedHere := PurgePage(items, p, deleteOk);
      attempted := attempted + attemptedHere;
      deleted := deleted + deletedHere;
      totalDeleted := totalDeleted + |deletedHere|;
      more := Truthy(pages[p].next);
      p := p + 1;
    }
    threw := false;
    DeletedWithinProcessed(pages, deleteOk, p);
  }

  /** The inner loop over one page's events: a delete call for each marked
      event, kept as deleted when the call succeeds. */
  method PurgePage(items: seq<CalendarItem>, p: nat, deleteOk: (nat, nat) -> bool)
    returns (attempted: seq<string>, deleted: seq<string>)
    ensures attempted == TargetIds(items)
    ensures deleted == DeletedIds(items, p, deleteOk)
  {
    attempted, deleted := [], [];
    for j := 0 to |items|
      invariant attempted == TargetIds(items[..j])
      invariant deleted == DeletedIds(items[..j], p, deleteOk)
    {
      assert items[..j + 1][..j] == items[..j];
      if IsPurgeTarget(items[j]) {
        attempted := attempted + [items[j].id];
        if deleteOk(p, j) {
          deleted := deleted + [items[j].id];
        }
      }
    }
    assert items[..|items|] == items;
  }

  /** Why `deleteLinkCalEvents` throws. */
  datatype PurgeFailure = AuthenticationRequired | InvalidAccount | TokenRefreshFailed | ListingFailed

  datatype PurgeResult = Purged | PurgeFailed(reason: PurgeFailure)

  /** `deleteLinkCalEvents(accountId)`: authenticate, open the account
      (refreshing its token), then purge the calendar of its provider family. */
  method DeleteLinkCalEvents(store: AccountStore, accountId: string, user: Option<string>,
                             google: TokenAnswer, microsoft: TokenAnswer, tokenPersisted: bool,
                             googlePages: seq<PageAnswer>, microsoftPages: seq<PageAnswer>, deleteOk: (nat, nat) -> bool)
    returns (r: PurgeResult, attempted: seq<string>, deleted: seq<string>)
    modifies store
    ensures user.None? ==> r == PurgeFailed(AuthenticationRequired) && store.accounts == old(store.accounts)
    ensures r.PurgeFailed? && r.reason != ListingFailed ==> attempted == [] && deleted == []
    ensures user.Some? ==>
              var check := CheckAccount(old(store.accounts), accountId, user.value, google, microsoft);
              && store.accounts == AccountsAfterCheck(old(store.accounts), accountId, check, tokenPersisted)
              && (check.NoAccount? ==> r == PurgeFailed(InvalidAccount))
              && (check.RefreshFailed? ==> r == PurgeFailed(TokenRefreshFailed))
              && (check.Ready? ==>
                    var pages := if check.family == GoogleFamily then googlePages else microsoftPages;
                    && r == (if ListingFails(pages) then PurgeFailed(ListingFailed) else Purged)
                    && attempted == AttemptedUpTo(pages, PagesRead(pages))
                    && deleted == DeletedUpTo(pages, deleteOk, PagesRead(pages)))
  {
    if user.None? {
      return PurgeFailed(AuthenticationRequired), [], [];
    }
    var check := OpenAccount(store, accountId, user.value, google, microsoft, tokenPersisted);
    if check.NoAccount? {
      return PurgeFailed(InvalidAccount), [], [];
    }
    if check.RefreshFailed? {
      return PurgeFailed(TokenRefreshFailed), [], [];
    }
    var pages := if check.family == GoogleFamily then googlePages else microsoftPages;
    var threw, totalProcessed, totalDeleted;
    threw, totalProcessed, totalDeleted, attempted, deleted := PurgePages(pages, deleteOk);
    r := if threw then PurgeFailed(ListingFailed) else Purged;
  }

  /** `deleteAccount(accountId)`: the row goes only when the purge returned
      normally and the delete statement reported no error; every error is
      rethrown. `rowDeleteFails` is that statement's answer. */
  method DeleteAccount(store: AccountStore, accountId: string, user: Option<string>,
                       google: TokenAnswer, microsoft: TokenAnswer, tokenPersisted: bool,
                       googlePages: seq<PageAnswer>, microsoftPages: seq<PageAnswer>, deleteOk: (nat, nat) -> bool,
                       rowDeleteFails: bool)
    returns (ok: bool)
    modifies store
    ensures var check := if user.Some? then CheckAccount(old(store.accounts), accountId, user.value, google, microsoft) else NoAccount;
            var afterPurge := AccountsAfterCheck(old(store.accounts), accountId, check, tokenPersisted);
            var pages := if check.Ready? && check.family == GoogleFamily then googlePages else microsoftPages;
            && (ok <==> check.Ready? && !ListingFails(pages) && !rowDeleteFails)
            && store.accounts == if ok then afterPurge - {accountId} else afterPurge
  {
    var r, attempted, deleted := DeleteLinkCalEvents(store, accountId, user, google, microsoft, tokenPersisted,
                                                     googlePages, microsoftPages, deleteOk);
    if r.PurgeFailed? || rowDeleteFails {
      return false;
    }
    store.Remove(accountId);
    return true;
  }
}
