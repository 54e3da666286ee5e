/** The `linked_accounts` table (db/schema.ts:23-33) as the control logic sees
    it: rows keyed by id, each tied to a user, a provider, an e-mail address and
    the stored OAuth refresh token. */
module Accounts {

  datatype LinkedAccount = LinkedAccount(
    userId: string,
    provider: string,
    email: string,
    refreshToken: string)

  /** The table after `update({ refresh_token: token }).eq("id", id)`: the row
      with that id, if any, gets the token; nothing else changes. */
  function WithRefreshToken(accounts: map<string, LinkedAccount>, id: string, token: string): (r: map<string, LinkedAccount>)
    ensures r.Keys == accounts.Keys
    ensures forall k :: k in r && k != id ==> r[k] == accounts[k]
    ensures id in r ==> r[id] == accounts[id].(refreshToken := token)
  {
    if id in accounts then accounts[id := accounts[id].(refreshToken := token)] else accounts
  }

  /** Writing the token a row already holds changes nothing. */
  lemma RewriteSameToken(accounts: map<string, LinkedAccount>, id: string)
    requires id in accounts
    ensures WithRefreshToken(accounts, id, accounts[id].refreshToken) == accounts
  {
  }

  /** The rows the application reads and writes. */
  class AccountStore {
    var accounts: map<string, LinkedAccount>

    constructor (initial: map<string, LinkedAccount>)
      ensures accounts == initial
    {
      accounts := initial;
    }

    method SetRefreshToken(id: string, token: string)
      modifies this
      ensures accounts == WithRefreshToken(old(accounts), id, token)
    {
      if id in accounts {
        accounts := accounts[id := accounts[id].(refreshToken := token)];
      }
    }

    /** `delete().eq("id", id)`. */
    method Remove(id: string)
      modifies this
      ensures accounts == old(accounts) - {id}
    {
      accounts := accounts - {id};
    }
  }
}
