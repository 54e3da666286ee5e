/** OAuth token rotation (utils/tokenRefresh.ts, and the identical private
    copies in utils/fetchLinkedAccountInfo.ts). The token endpoints are
    modelled by their answers. */
module TokenRefresh {
  import opened Js
  import opened Accounts

  /** The two provider families the code dispatches to. */
  datatype Family = GoogleFamily | MicrosoftFamily

  /** `provider === "google"` and `["azure-ad", "microsoft"].includes(provider)`. */
  function ProviderFamily(provider: string): (r: Option<Family>)
    ensures r == Some(GoogleFamily) <==> provider == "google"
    ensures r == Some(MicrosoftFamily) <==> provider == "azure-ad" || provider == "microsoft"
    ensures r.None? <==> provider != "google" && provider != "azure-ad" && provider != "microsoft"
  {
    if provider == "google" then Some(GoogleFamily)
    else if provider == "azure-ad" || provider == "microsoft" then Some(MicrosoftFamily)
    else None
  }

  /** The answer of a token endpoint: the request failed, or a body whose
      `access_token` and `refresh_token` may each be missing. */
  datatype TokenAnswer = TokenFailed | TokenOk(accessToken: Option<string>, refreshToken: Option<string>)

  /** `{ accessToken, refreshToken }` as the refresh helpers return it. */
  datatype Tokens = Tokens(accessToken: Option<string>, refreshToken: string)

  /** `refreshGoogleToken` / `refreshMicrosoftToken` after the request: a failed
      request throws (None); otherwise the provider's refresh token is kept
      when it is a non-empty string, and the current one in every other case. */
  function RefreshTokens(answer: TokenAnswer, current: string): (r: Option<Tokens>)
    ensures r.None? <==> answer.TokenFailed?
    ensures r.Some? ==> r.value.accessToken == answer.accessToken
    ensures r.Some? && Truthy(answer.refreshToken) ==> r.value.refreshToken == answer.refreshToken.value
    ensures r.Some? && !Truthy(answer.refreshToken) ==> r.value.refreshToken == current
  {
    match answer
    case TokenFailed => None
    case TokenOk(access, refresh) => Some(Tokens(access, OrElse(refresh, current)))
  }

  /** Rotation never loses a usable refresh token: if the account had one, it still has one. */
  lemma RotationKeepsAToken(answer: TokenAnswer, current: string)
    requires current != "" && answer.TokenOk?
    ensures RefreshTokens(answer, current).value.refreshToken != ""
  {
  }

  /** A provider that sends no new refresh token (or an empty one) leaves the stored one in place. */
  lemma NoNewTokenKeepsOld(accessToken: Option<string>, current: string)
    ensures RefreshTokens(TokenOk(accessToken, None), current) == Some(Tokens(accessToken, current))
    ensures RefreshTokens(TokenOk(accessToken, Some("")), current) == Some(Tokens(accessToken, current))
  {
  }

  /** The answer the dispatched endpoint gives. */
  function AnswerFor(family: Family, googleAnswer: TokenAnswer, microsoftAnswer: TokenAnswer): TokenAnswer {
    match family
    case GoogleFamily => googleAnswer
    case MicrosoftFamily => microsoftAnswer
  }

  /** What `refreshAndUpdateToken` returns: None when it throws, otherwise the
      access token (possibly undefined). */
  function RefreshOutcome(provider: string, current: string, googleAnswer: TokenAnswer, microsoftAnswer: TokenAnswer): (r: Option<Option<string>>)
    ensures ProviderFamily(provider).None? ==> r.None?
    ensures provider == "google" ==>
              r == (if googleAnswer.TokenFailed? then None else Some(googleAnswer.accessToken))
    ensures provider == "azure-ad" || provider == "microsoft" ==>
              r == (if microsoftAnswer.TokenFailed? then None else Some(microsoftAnswer.accessToken))
  {
    match ProviderFamily(provider)
    case None => None
    case Some(f) =>
      var tokens := RefreshTokens(AnswerFor(f, googleAnswer, microsoftAnswer), current);
      if tokens.None? then None else Some(tokens.value.accessToken)
  }

  /** The refresh token `refreshAndUpdateToken` stores, when it gets that far. */
  function StoredToken(provider: string, current: string, googleAnswer: TokenAnswer, microsoftAnswer: TokenAnswer): Option<string> {
    match ProviderFamily(provider)
    case None => None
    case Some(f) =>
      var tokens := RefreshTokens(AnswerFor(f, googleAnswer, microsoftAnswer), current);
      if tokens.None? then None else Some(tokens.value.refreshToken)
  }

  /** The store's state after `refreshAndUpdateToken`. `persisted` says whether
      the database accepted the write; the code ignores a write error. */
  function AccountsAfterRefresh(accounts: map<string, LinkedAccount>, accountId: string, provider: string, current: string,
                                googleAnswer: TokenAnswer, microsoftAnswer: TokenAnswer, persisted: bool): map<string, LinkedAccount> {
    var stored := StoredToken(provider, current, googleAnswer, microsoftAnswer);
    if stored.Some? && persisted then WithRefreshToken(accounts, accountId, stored.value) else accounts
  }

  /** The token is written exactly when the refresh succeeded, and only on the account's own row. */
  lemma RefreshWritesOnlyOnSuccess(accounts: map<string, LinkedAccount>, accountId: string, provider: string, current: string,
                                   googleAnswer: TokenAnswer, microsoftAnswer: TokenAnswer, persisted: bool)
    ensures RefreshOutcome(provider, current, googleAnswer, microsoftAnswer).None? ==>
              AccountsAfterRefresh(accounts, accountId, provider, current, googleAnswer, microsoftAnswer, persisted) == accounts
    ensures var after := AccountsAfterRefresh(accounts, accountId, provider, current, googleAnswer, microsoftAnswer, persisted);
            after.Keys == accounts.Keys && forall k :: k in after && k != accountId ==> after[k] == accounts[k]
  {
  }

  /** `refreshAndUpdateToken`: dispatch on the provider, refresh, write the
      refresh token back to the account's row, return the access token. */
  method RefreshAndUpdateToken(store: AccountStore, accountId: string, provider: string, currentRefreshToken: string,
                               googleAnswer: TokenAnswer, microsoftAnswer: TokenAnswer, persisted: bool)
    returns (accessToken: Option<Option<string>>)
    modifies store
    ensures accessToken == RefreshOutcome(provider, currentRefreshToken, googleAnswer, microsoftAnswer)
    ensures store.accounts == AccountsAfterRefresh(old(store.accounts), accountId, provider, currentRefreshToken,
                                                   googleAnswer, microsoftAnswer, persisted)
  {
    var tokens: Option<Tokens>;
    if provider == "google" {
      tokens := RefreshTokens(googleAnswer, currentRefreshToken);
    } else if provider == "azure-ad" || provider == "microsoft" {
      tokens := RefreshTokens(microsoftAnswer, currentRefreshToken);
    } else {
      // "Unsupported provider" is thrown before the store is touched
      return None;
    }
    if tokens.None? {
      return None;
    }
    if persisted {
      store.SetRefreshToken(accountId, tokens.value.refreshToken);
    }
    return Some(tokens.value.accessToken);
  }

  /** The account lookup and token refresh that open `forwardMeetings` and
      `deleteLinkCalEvents`: no row of this user with that id; a refresh that
      threw (an unsupported provider included); or the provider family and the
      refresh token to write back. */
  datatype AccountCheck = NoAccount | RefreshFailed | Ready(family: Family, refreshToken: string)

  function CheckAccount(accounts: map<string, LinkedAccount>, accountId: string, userId: string,
                        google: TokenAnswer, microsoft: TokenAnswer): (r: AccountCheck)
    ensures r.NoAccount? <==> !(accountId in accounts && accounts[accountId].userId == userId)
    ensures !r.NoAccount? && ProviderFamily(accounts[accountId].provider).None? ==> r.RefreshFailed?
    ensures r.Ready? ==>
              && ProviderFamily(accounts[accountId].provider) == Some(r.family)
              && var tokens := RefreshTokens(AnswerFor(r.family, google, microsoft), accounts[accountId].refreshToken);
                 tokens.Some? && tokens.value.refreshToken == r.refreshToken
    ensures r.RefreshFailed? ==>
              ProviderFamily(accounts[accountId].provider).None? ||
              AnswerFor(ProviderFamily(accounts[accountId].provider).value, google, microsoft).TokenFailed?
  {
    if !(accountId in accounts && accounts[accountId].userId == userId) then NoAccount
    else match ProviderFamily(accounts[accountId].provider)
      case None => RefreshFailed
      case Some(family) =>
        var tokens := RefreshTokens(AnswerFor(family, google, microsoft), accounts[accountId].refreshToken);
        if tokens.None? then RefreshFailed else Ready(family, tokens.value.refreshToken)
  }

  /** The token write-back happens only after a successful refresh; its
      result is not inspected, so `persisted` says whether it took effect. */
  function AccountsAfterCheck(accounts: map<string, LinkedAccount>, accountId: string, check: AccountCheck, persisted: bool): map<string, LinkedAccount> {
    if check.Ready? && persisted then WithRefreshToken(accounts, accountId, check.refreshToken) else accounts
  }

  /** An unsupported provider fails the refresh and leaves the row alone. */
  lemma UnsupportedProviderRejected(accounts: map<string, LinkedAccount>, accountId: string, userId: string,
                                    google: TokenAnswer, microsoft: TokenAnswer, persisted: bool)
    requires accountId in accounts && accounts[accountId].userId == userId
    requires ProviderFamily(accounts[accountId].provider).None?
    ensures var check := CheckAccount(accounts, accountId, userId, google, microsoft);
            check == RefreshFailed && AccountsAfterCheck(accounts, accountId, check, persisted) == accounts
  {
  }

  /** Only the account's row can change, and only its refresh token. */
  lemma CheckTouchesOnlyAccount(accounts: map<string, LinkedAccount>, accountId: string, check: AccountCheck, persisted: bool)
    ensures var after := AccountsAfterCheck(accounts, accountId, check, persisted);
            && after.Keys == accounts.Keys
            && (forall id :: id in after && id != accountId ==> after[id] == accounts[id])
            && (accountId in after ==> after[accountId].(refreshToken := accounts[accountId].refreshToken) == accounts[accountId])
  {
  }

  method OpenAccount(store: AccountStore, accountId: string, userId: string,
                     google: TokenAnswer, microsoft: TokenAnswer, persisted: bool) returns (check: AccountCheck)
    modifies store
    ensures check == CheckAccount(old(store.accounts), accountId, userId, google, microsoft)
    ensures store.accounts == AccountsAfterCheck(old(store.accounts), accountId, check, persisted)
  {
    if !(accountId in store.accounts && store.accounts[accountId].userId == userId) {
      return NoAccount;
    }
    var account := store.accounts[accountId];
    var tokens: Option<Tokens>;
    var family: Family;
    if account.provider == "google" {
      family := GoogleFamily;
      tokens := RefreshTokens(google, account.refreshToken);
    } else if account.provider == "azure-ad" || account.provider == "microsoft" {
      family := MicrosoftFamily;
      tokens := RefreshTokens(microsoft, account.refreshToken);
    } else {
      // "Unsupported (target) provider", rethrown as a refresh failure
      return RefreshFailed;
    }
    if tokens.None? {
      return RefreshFailed;
    }
    check := Ready(family, tokens.value.refreshToken);
    if persisted {
      store.SetRefreshToken(accountId, check.refreshToken);
    }
  }
}
