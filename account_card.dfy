/** The decision logic of the account card (components/Accountcard.tsx): the
    webhook status badge, whether a manual resync is in flight, and the guard on
    the resync button. Rendering and React state are not modelled. */
module AccountCard {
  import opened Js

  datatype WebhookStatus = Disconnected | Expired | Connected {
    /** The label the card shows. */
    function Label(): string {
      match this
      case Disconnected => "disconnected"
      case Expired => "expired"
      case Connected => "connected"
    }
  }

  /** The webhook fields of a linked account row. */
  datatype WebhookFields = WebhookFields(resourceId: Option<string>, expiration: Option<string>)

  /** The webhook status. `toMs` is `new Date(x).getTime()`, None standing
      for NaN (an unparseable expiration); `now` is `Date.now()`. */
  function ClassifyWebhook(account: WebhookFields, toMs: string -> Option<int>, now: int): (r: WebhookStatus)
    ensures !Truthy(account.resourceId) ==> r == Disconnected
    ensures Truthy(account.resourceId) && !Truthy(account.expiration) ==> r == Disconnected
    ensures Truthy(account.resourceId) && Truthy(account.expiration) ==>
              (r == Expired <==> (toMs(account.expiration.value).Some? && toMs(account.expiration.value).value < now))
    ensures Truthy(account.resourceId) && Truthy(account.expiration) ==> r != Disconnected
  {
    if !Truthy(account.resourceId) then Disconnected
    else if Truthy(account.expiration) then
      var expiration := toMs(account.expiration.value);
      // `NaN < now` is false, so an unparseable expiration reads as connected
      if expiration.Some? && expiration.value < now then Expired else Connected
    else Disconnected
  }

  /** The label is always one of the three strings. */
  lemma LabelIsOneOfThree(s: WebhookStatus)
    ensures s.Label() in {"disconnected", "expired", "connected"}
  {
  }

  /** An expiration the clock can no longer reach is reported as expired, any later one as connected. */
  lemma ExpirationBoundary(resourceId: string, expiration: string, at: int, now: int)
    requires resourceId != "" && expiration != ""
    ensures ClassifyWebhook(WebhookFields(Some(resourceId), Some(expiration)), _ => Some(at), now)
            == (if at < now then Expired else Connected)
  {
  }

  /** `manualResyncStatus[account.id] === "syncing"`. */
  predicate IsSyncing(manualResyncStatus: map<string, string>, accountId: string) {
    accountId in manualResyncStatus && manualResyncStatus[accountId] == "syncing"
  }

  /** `handleResync`: whether the resync handler is invoked. */
  function HandleResyncCallsHandler(manualResyncStatus: map<string, string>, accountId: string): bool {
    !IsSyncing(manualResyncStatus, accountId)
  }

  /** The page marks an account "syncing" while its resync runs and "idle" or
      "done" when it ends: pressing resync does nothing under the first mark and
      calls the handler under the other two, with no mark at all, and whatever
      the marks of other accounts. */
  lemma ResyncBlockedWhileSyncing(status: map<string, string>, accountId: string, other: string, mark: string)
    requires other != accountId
    ensures !HandleResyncCallsHandler(status[accountId := "syncing"], accountId)
    ensures HandleResyncCallsHandler(status[accountId := "idle"], accountId)
    ensures HandleResyncCallsHandler(status[accountId := "done"], accountId)
    ensures HandleResyncCallsHandler(status - {accountId}, accountId)
    ensures HandleResyncCallsHandler(status[other := mark], accountId) == HandleResyncCallsHandler(status, accountId)
  {
  }
}
