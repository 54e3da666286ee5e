/** `fetchMeetings` (utils/meetings/fetchMeetings.ts): find the account (or take
    the service account handed in), rotate its token, fetch and normalise the
    provider's events and keep those with a parseable start. Every failure
    ends in null. The network answers are parameters. */
module FetchMeetings {
  import opened Js
  import opened Meetings
  import opened Validation
  import opened Accounts
  import opened TokenRefresh
  import opened GoogleProvider
  import opened MicrosoftProvider

  /** `serviceAccountData`, or the row `verifyLinkedAccount` returns. */
  datatype AccountRef = AccountRef(id: string, provider: string, refreshToken: string)

  /** Everything the network answers during one fetch. */
  datatype Remote = Remote(
    googleToken: TokenAnswer,
    microsoftToken: TokenAnswer,
    tokenPersisted: bool,
    googleItems: ItemsAnswer<GoogleEvent>,
    microsoftItems: ItemsAnswer<MicrosoftEvent>)

  /** `verifyLinkedAccount`: the row with this id that belongs to this user. */
  function VerifyLinkedAccount(accounts: map<string, LinkedAccount>, accountId: string, userId: string): (r: Option<AccountRef>)
    ensures r.Some? <==> accountId in accounts && accounts[accountId].userId == userId
    ensures r.Some? ==> r.value.id == accountId && r.value.provider == accounts[accountId].provider
                        && r.value.refreshToken == accounts[accountId].refreshToken
  {
    if accountId in accounts && accounts[accountId].userId == userId then
      Some(AccountRef(accountId, accounts[accountId].provider, accounts[accountId].refreshToken))
    else None
  }

  /** The events of an account once it is known (the `try` block). */
  function EventsFor(account: AccountRef, remote: Remote, marker: string, parses: string -> bool): (r: Option<seq<Event>>)
    ensures ProviderFamily(account.provider).None? ==> r.None?
  {
    var token := RefreshOutcome(account.provider, account.refreshToken, remote.googleToken, remote.microsoftToken);
    if token.None? then None
    else if account.provider == "google" then
      var raw := FetchGoogleEvents(remote.googleItems, marker);
      if raw.None? then None else Some(ValidateMeetings(NormalizeGoogleEvents(raw.value, account.id), parses))
    else if account.provider == "microsoft" || account.provider == "azure-ad" then
      var raw := FetchMicrosoftEvents(remote.microsoftItems, marker);
      if raw.None? then None else Some(ValidateMeetings(NormalizeMicrosoftEvents(raw.value, account.id), parses))
    else None
  }

  /** What a successful fetch returns: normalised events of the account's own
      provider, tagged with the account, every one with a parseable start. */
  lemma FetchedEventsAreValidAndTagged(account: AccountRef, remote: Remote, marker: string, parses: string -> bool)
    requires EventsFor(account, remote, marker, parses).Some?
    ensures var events := EventsFor(account, remote, marker, parses).value;
            forall e :: e in events ==>
              && e.linkedAccountId == account.id && e.id == e.externalEventId
              && HasValidStart(e, parses)
              && e.provider == (if account.provider == "google" then "google" else "microsoft")
  {
  }

  /** Dispatch: a Google account reads only the Google answers, a Microsoft one only the Graph answers. */
  lemma DispatchReadsOwnProvider(account: AccountRef, remote: Remote, other: Remote, marker: string, parses: string -> bool)
    ensures account.provider == "google" && remote.googleToken == other.googleToken && remote.googleItems == other.googleItems ==>
              EventsFor(account, remote, marker, parses) == EventsFor(account, other, marker, parses)
    ensures (account.provider == "microsoft" || account.provider == "azure-ad") &&
            remote.microsoftToken == other.microsoftToken && remote.microsoftItems == other.microsoftItems ==>
              EventsFor(account, remote, marker, parses) == EventsFor(account, other, marker, parses)
  {
  }

  /** A failed token refresh or a failed fetch yields null, for either provider family. */
  lemma FailuresYieldNull(account: AccountRef, remote: Remote, marker: string, parses: string -> bool)
    requires || (account.provider == "google" &&
                 (remote.googleToken.TokenFailed? || (remote.googleToken.TokenOk? && remote.googleItems.FetchFailed?)))
             || ((account.provider == "microsoft" || account.provider == "azure-ad") &&
                 (remote.microsoftToken.TokenFailed? || (remote.microsoftToken.TokenOk? && remote.microsoftItems.FetchFailed?)))
    ensures EventsFor(account, remote, marker, parses).None?
  {
  }

  /** `fetchMeetings`. `user` is the authenticated user's id (None when
      authentication fails). */
  method FetchMeetings(store: AccountStore, accountId: string, serviceAccount: Option<AccountRef>, user: Option<string>,
                       remote: Remote, marker: string, parses: string -> bool)
    returns (r: Option<seq<Event>>)
    modifies store
    // with service-account data neither the user nor the account table is consulted
    ensures serviceAccount.Some? ==> r == EventsFor(serviceAccount.value, remote, marker, parses)
    ensures serviceAccount.None? && user.None? ==> r.None? && store.accounts == old(store.accounts)
    ensures serviceAccount.None? && user.Some? && VerifyLinkedAccount(old(store.accounts), accountId, user.value).None? ==>
              r.None? && store.accounts == old(store.accounts)
    ensures serviceAccount.None? && user.Some? && VerifyLinkedAccount(old(store.accounts), accountId, user.value).Some? ==>
              r == EventsFor(VerifyLinkedAccount(old(store.accounts), accountId, user.value).value, remote, marker, parses)
    // the only write is the token rotation on the account's own row
    ensures var account := if serviceAccount.Some? then serviceAccount
                           else if user.Some? then VerifyLinkedAccount(old(store.accounts), accountId, user.value)
                           else None;
            store.accounts == if account.None? then old(store.accounts)
                              else AccountsAfterRefresh(old(store.accounts), account.value.id, account.value.provider,
                                                        account.value.refreshToken, remote.googleToken,
                                                        remote.microsoftToken, remote.tokenPersisted)
  {
    var account: AccountRef;
    if serviceAccount.Some? {
      account := serviceAccount.value;
    } else {
      if user.None? {
        return None;
      }
      var retrieved := VerifyLinkedAccount(store.accounts, accountId, user.value);
      if retrieved.None? {
        return None;
      }
      account := retrieved.value;
    }
    var accessToken := RefreshAndUpdateToken(store, account.id, account.provider, account.refreshToken,
                                             remote.googleToken, remote.microsoftToken, remote.tokenPersisted);
    if accessToken.None? {
      return None;
    }
    var events: seq<Event>;
    if account.provider == "google" {
      var raw := FetchGoogleEvents(remote.googleItems, marker);
      if raw.None? {
        return None;
      }
      events := NormalizeGoogleEvents(raw.value, account.id);
    } else if account.provider == "microsoft" || account.provider == "azure-ad" {
      var raw := FetchMicrosoftEvents(remote.microsoftItems, marker);
      if raw.None? {
        return None;
      }
      events := NormalizeMicrosoftEvents(raw.value, account.id);
    } else {
      // "Unsupported calendar provider"; the token refresh has already refused such a provider
      return None;
    }
    return Some(ValidateMeetings(events, parses));
  }
}
