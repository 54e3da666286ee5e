/** The older fetch path (utils/fetchLinkedAccountInfo.ts): the normalised event
    with a single `date`, its two normalisers, and `fetchMeetings`, which
    rotates the token, fetches and normalises, and only then writes the new
    refresh token back. The token endpoints and calendar APIs are modelled by
    their answers. */
module LegacyFetch {
  import opened Js
  import opened Seqs
  import opened Meetings
  import opened Accounts
  import opened TokenRefresh
  import GoogleProvider
  import MicrosoftProvider
  import FetchMeetings

  /** The seven content columns of the older shape; every one is text. */
  datatype LegacyContent = LegacyContent(
    name: string,
    date: string,
    attendees: seq<string>,
    location: string,
    link: string,
    message: string,
    status: string)

  /** `NormalizedEvent`: the native id, the provider and the content. */
  datatype LegacyEvent = LegacyEvent(id: string, provider: string, content: LegacyContent)

  const NoDate: string := "No date"

  /** One element of the older `normalizeGoogleEvents`. */
  function LegacyGoogleEvent(e: GoogleProvider.GoogleEvent): (r: LegacyEvent)
    ensures r.id == e.id && r.provider == "google"
    ensures r.content.date == OrElse(GoogleProvider.When(e.start), NoDate)
  {
    LegacyEvent(e.id, "google", LegacyContent(
      name := OrElse(e.summary, GoogleProvider.NoTitle),
      date := OrElse(GoogleProvider.When(e.start), NoDate),
      attendees := GoogleProvider.Attendees(e.attendees),
      location := OrElse(e.location, GoogleProvider.NoLocation),
      link := OrElse(e.hangoutLink, GoogleProvider.NoLink),
      message := OrElse(e.description, GoogleProvider.NoDescription),
      status := OrElse(e.status, GoogleProvider.DefaultStatus)))
  }

  /** One element of the older `normalizeMicrosoftEvents`. */
  function LegacyMicrosoftEvent(e: MicrosoftProvider.MicrosoftEvent): (r: LegacyEvent)
    ensures r.id == e.id && r.provider == "microsoft"
    ensures r.content.date == OrElse(MicrosoftProvider.DateTime(e.start), NoDate)
  {
    LegacyEvent(e.id, "microsoft", LegacyContent(
      name := OrElse(e.subject, MicrosoftProvider.NoTitle),
      date := OrElse(MicrosoftProvider.DateTime(e.start), NoDate),
      attendees := GoogleProvider.Attendees(e.attendees),
      location := MicrosoftProvider.LocationOf(e),
      link := OrElse(MicrosoftProvider.JoinUrl(e), MicrosoftProvider.NoLink),
      message := OrElse(e.bodyPreview, MicrosoftProvider.NoDescription),
      status := MicrosoftProvider.StatusOf(e)))
  }

  function LegacyGoogleEvents(events: seq<GoogleProvider.GoogleEvent>): (r: seq<LegacyEvent>)
    ensures |r| == |events|
    ensures forall i :: 0 <= i < |r| ==> r[i] == LegacyGoogleEvent(events[i])
  {
    MapSeq(events, LegacyGoogleEvent)
  }

  function LegacyMicrosoftEvents(events: seq<MicrosoftProvider.MicrosoftEvent>): (r: seq<LegacyEvent>)
    ensures |r| == |events|
    ensures forall i :: 0 <= i < |r| ==> r[i] == LegacyMicrosoftEvent(events[i])
  {
    MapSeq(events, LegacyMicrosoftEvent)
  }

  /** The two Google normalisers agree on every text column and on the
      attendees; the older `date` is the newer `start_date`, or "No date". */
  lemma GoogleNormalisersAgree(e: GoogleProvider.GoogleEvent, linkedAccountId: string)
    ensures var older := LegacyGoogleEvent(e).content;
            var newer := GoogleProvider.NormalizeGoogleEvent(e, linkedAccountId).content;
            && Some(older.name) == newer.name && Some(older.location) == newer.location && Some(older.link) == newer.link
            && Some(older.message) == newer.message && Some(older.status) == newer.status && older.attendees == newer.attendees
            && older.date == OrElse(newer.startDate, NoDate)
  {
  }

  /** The two Microsoft normalisers agree on every text column and on the
      attendees; the newer start is the older `date` with "Z" appended
      whenever the event has a start time. */
  lemma MicrosoftNormalisersAgree(e: MicrosoftProvider.MicrosoftEvent, linkedAccountId: string)
    ensures var older := LegacyMicrosoftEvent(e).content;
            var newer := MicrosoftProvider.NormalizeMicrosoftEvent(e, linkedAccountId).content;
            && Some(older.name) == newer.name && Some(older.location) == newer.location && Some(older.link) == newer.link
            && Some(older.message) == newer.message && Some(older.status) == newer.status && older.attendees == newer.attendees
            && (Truthy(MicrosoftProvider.DateTime(e.start)) ==> newer.startDate == Some(older.date + "Z"))
            && (!Truthy(MicrosoftProvider.DateTime(e.start)) ==> older.date == NoDate)
  {
  }

  /** `fetchGoogleEvents` / `fetchMicrosoftEvents` of this file: `items || []`
      without any filtering; None stands for the thrown error. */
  function LegacyItems<T>(answer: GoogleProvider.ItemsAnswer<T>): (r: Option<seq<T>>)
    ensures answer.FetchFailed? <==> r.None?
    ensures answer.Items? ==> r == Some(answer.items.GetOr([]))
  {
    match answer
    case FetchFailed => None
    case Items(items) => Some(items.GetOr([]))
  }

  /** What the `try` block produces before the write-back: the normalised
      events and the refresh token to store. */
  datatype Fetched = Fetched(events: seq<LegacyEvent>, newRefreshToken: string)

  function LegacyAttempt(provider: string, refreshToken: string, remote: FetchMeetings.Remote): (r: Option<Fetched>)
    ensures ProviderFamily(provider).None? ==> r.None?
    ensures r.Some? ==>
              var answer := if provider == "google" then remote.googleToken else remote.microsoftToken;
              answer.TokenOk? && r.value.newRefreshToken == RefreshTokens(answer, refreshToken).value.refreshToken
  {
    if provider == "google" then
      var tokens := RefreshTokens(remote.googleToken, refreshToken);
      var items := LegacyItems(remote.googleItems);
      if tokens.None? || items.None? then None
      else Some(Fetched(LegacyGoogleEvents(items.value), tokens.value.refreshToken))
    else if provider == "azure-ad" || provider == "microsoft" then
      var tokens := RefreshTokens(remote.microsoftToken, refreshToken);
      var items := LegacyItems(remote.microsoftItems);
      if tokens.None? || items.None? then None
      else Some(Fetched(LegacyMicrosoftEvents(items.value), tokens.value.refreshToken))
    else None
  }

  /** The row `select(...).eq("id").eq("email").eq("user_id").single()` finds. */
  predicate OwnsAccount(accounts: map<string, LinkedAccount>, accountId: string, email: string, userId: string) {
    accountId in accounts && accounts[accountId].email == email && accounts[accountId].userId == userId
  }

  /** The older `fetchMeetings`. `user` is the logged-in user's id, if any;
      `remote.tokenPersisted` says whether the write-back reached the row
      (its result is not inspected). */
  method LegacyFetchMeetings(store: AccountStore, accountId: string, email: string, user: Option<string>, remote: FetchMeetings.Remote)
    returns (r: Option<seq<LegacyEvent>>)
    modifies store
    ensures user.None? || !OwnsAccount(old(store.accounts), accountId, email, user.value) ==>
              r.None? && store.accounts == old(store.accounts)
    ensures user.Some? && OwnsAccount(old(store.accounts), accountId, email, user.value) ==>
              var attempt := LegacyAttempt(old(store.accounts)[accountId].provider, old(store.accounts)[accountId].refreshToken, remote);
              && r == (if attempt.Some? then Some(attempt.value.events) else None)
              && store.accounts == if attempt.Some? && remote.tokenPersisted
                                   then WithRefreshToken(old(store.accounts), accountId, attempt.value.newRefreshToken)
                                   else old(store.accounts)
  {
    if user.None? {
      return None;
    }
    if !OwnsAccount(store.accounts, accountId, email, user.value) {
      return None;
    }
    var provider := store.accounts[accountId].provider;
    var refreshToken := store.accounts[accountId].refreshToken;
    var newRefreshToken: string;
    var events: seq<LegacyEvent>;
    if provider == "google" {
      var tokens := RefreshTokens(remote.googleToken, refreshToken);
      if tokens.None? {
        return None;
      }
      newRefreshToken := tokens.value.refreshToken;
      var items := LegacyItems(remote.googleItems);
      if items.None? {
        return None;
      }
      events := LegacyGoogleEvents(items.value);
    } else if provider == "azure-ad" || provider == "microsoft" {
      var tokens := RefreshTokens(remote.microsoftToken, refreshToken);
      if tokens.None? {
        return None;
      }
      newRefreshToken := tokens.value.refreshToken;
      var items := LegacyItems(remote.microsoftItems);
      if items.None? {
        return None;
      }
      events := LegacyMicrosoftEvents(items.value);
    } else {
      // "Unsupported provider": null, and the stored token is left alone
      return None;
    }
    if remote.tokenPersisted {
      store.SetRefreshToken(accountId, newRefreshToken);
    }
    return Some(events);
  }

  /** The write-back comes last: a failed event fetch keeps the old refresh
      token in the row even though the provider has already rotated it. */
  lemma LegacyFetchFailureKeepsOldToken(provider: string, refreshToken: string, remote: FetchMeetings.Remote)
    requires provider == "google" && remote.googleToken.TokenOk? && remote.googleItems.FetchFailed?
    ensures LegacyAttempt(provider, refreshToken, remote).None?
  {
  }

  /** The newer path stores the rotated token before it fetches, so the same failure leaves the new token stored. */
  lemma NewerFetchFailureStoresNewToken(accounts: map<string, LinkedAccount>, account: FetchMeetings.AccountRef,
                                        remote: FetchMeetings.Remote, marker: string, parses: string -> bool)
    requires account.provider == "google" && account.id in accounts && remote.tokenPersisted
    requires remote.googleToken.TokenOk? && remote.googleItems.FetchFailed?
    ensures FetchMeetings.EventsFor(account, remote, marker, parses).None?
    ensures AccountsAfterRefresh(accounts, account.id, account.provider, account.refreshToken, remote.googleToken,
                                 remote.microsoftToken, remote.tokenPersisted)[account.id].refreshToken ==
            RefreshTokens(remote.googleToken, account.refreshToken).value.refreshToken
  {
  }

  /** An unsupported provider yields null with the token untouched. */
  lemma LegacyUnsupportedProvider(provider: string, refreshToken: string, remote: FetchMeetings.Remote)
    requires provider != "google" && provider != "azure-ad" && provider != "microsoft"
    ensures LegacyAttempt(provider, refreshToken, remote).None?
  {
  }
}
