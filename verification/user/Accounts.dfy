/**
 Accounts, sign-in identities and refresh tokens: the locked transactions that issue,
 refresh and revoke sessions (server/internal/user/handler.go,
 server/internal/user/profile.go, server/internal/oidc/handler.go,
 server/db/generated/users.sql.go).

 Assumptions on the tables: an identity is unique on issuer and subject, accounts are
 never deleted, token hashes are fresh, and an expired refresh token is a removed one.
 Emails stand here already folded and are taken to be unique so, which the schema, with
 its case-sensitive constraint, does not enforce by itself.
 */
module Accounts {
  import opened Wrappers

  type UserId = nat
  type Hash = nat
  type Password = nat

  datatype User = User(email: string, password: Option<Password>, version: nat)

  datatype Identity = Identity(issuer: string, subject: string)

  datatype TokenRow = TokenRow(user: UserId, version: nat)

  datatype Tables = Tables(users: map<UserId, User>, identities: map<Identity, UserId>, tokens: map<Hash, TokenRow>)

  /** `issuer` is the configured single sign-on provider, empty when there is none. */
  datatype Settings = Settings(passwordEnabled: bool, issuer: string)

  // ---------------------------------------------------------------- which identities count

  function TrimSlash(s: string): string {
    if s != [] && s[|s| - 1] == '/' then s[..|s| - 1] else s
  }

  predicate SameIssuer(a: string, b: string) {
    TrimSlash(a) == TrimSlash(b)
  }

  predicate IdentityActive(c: Settings, issuer: string) {
    c.issuer != "" && SameIssuer(issuer, c.issuer)
  }

  function UsableIdentities(c: Settings, t: Tables, u: UserId): set<Identity> {
    set i | i in t.identities && t.identities[i] == u && IdentityActive(c, i.issuer)
  }

  predicate HasLoginMethod(hasPassword: bool, passwordEnabled: bool, remaining: nat) {
    (hasPassword && passwordEnabled) || remaining > 0
  }

  ghost predicate CanSignIn(c: Settings, t: Tables, u: UserId)
    requires u in t.users
  {
    (t.users[u].password.Some? && c.passwordEnabled) || UsableIdentities(c, t, u) != {}
  }

  // ---------------------------------------------------------------- statements

  function WithoutTokens(t: Tables, u: UserId): Tables {
    t.(tokens := map h | h in t.tokens && t.tokens[h].user != u :: t.tokens[h])
  }

  function WithoutIdentities(t: Tables, u: UserId): Tables {
    t.(identities := map i | i in t.identities && t.identities[i] != u :: t.identities[i])
  }

  function Bumped(t: Tables, u: UserId): Tables
    requires u in t.users
  {
    t.(users := t.users[u := t.users[u].(version := t.users[u].version + 1)])
  }

  function WithPassword(t: Tables, u: UserId, password: Option<Password>): Tables
    requires u in t.users
  {
    t.(users := t.users[u := t.users[u].(password := password)])
  }

  /** The stored half of a token pair, stamped with the version its caller read. */
  function Issued(t: Tables, u: UserId, version: nat, hash: Hash): Tables {
    t.(tokens := t.tokens[hash := TokenRow(u, version)])
  }

  // ---------------------------------------------------------------- transactions

  datatype RefreshOutcome =
    | UnknownToken
    | StaleToken(after: Tables)
    | Refreshed(after: Tables, user: UserId, version: nat)

  /** Spends the token in any case; only a token of the current version buys a new pair. */
  function Refresh(t: Tables, hash: Hash, newHash: Hash): RefreshOutcome {
    if hash !in t.tokens || t.tokens[hash].user !in t.users then UnknownToken
    else
      var row := t.tokens[hash];
      var spent := t.(tokens := map h | h in t.tokens && h != hash :: t.tokens[h]);
      if row.version != t.users[row.user].version then StaleToken(spent)
      else Refreshed(Issued(spent, row.user, row.version, newHash), row.user, row.version)
  }

  /** Under the lock the account must still be as it was when the request was authorised. */
  function ChangePassword(t: Tables, u: UserId, version: nat, seen: Option<Password>, password: Password, newHash: Hash): Option<Tables> {
    if u !in t.users || t.users[u].version != version || t.users[u].password != seen then None
    else Some(Issued(Bumped(WithoutTokens(WithPassword(t, u, Some(password)), u), u), u, version + 1, newHash))
  }

  datatype AccountError = SessionRevoked | IdentityNotFound | OnlyWayToSignIn | IdentityInUse | IdentityMoved | AccountMissing | EmailMissing | EmailUnverified

  function UnlinkIdentity(c: Settings, t: Tables, u: UserId, version: nat, identity: Identity): Result<Tables, AccountError> {
    if u !in t.users || t.users[u].version != version then Err(SessionRevoked)
    else if identity !in t.identities || t.identities[identity] != u then Err(IdentityNotFound)
    else
      var after := t.(identities := map i | i in t.identities && i != identity :: t.identities[i]);
      if !HasLoginMethod(t.users[u].password.Some?, c.passwordEnabled, |UsableIdentities(c, after, u)|) then Err(OnlyWayToSignIn)
      else Ok(after)
  }

  function LinkIdentity(t: Tables, u: UserId, version: nat, identity: Identity): Result<Tables, AccountError> {
    if u !in t.users || t.users[u].version != version then Err(SessionRevoked)
    else if identity in t.identities then (if t.identities[identity] == u then Ok(t) else Err(IdentityInUse))
    else Ok(t.(identities := t.identities[identity := u]))
  }

  ghost predicate OwnsEmail(t: Tables, u: UserId, email: string) {
    u in t.users && t.users[u].email == email
  }

  /** Who an identity signs in as, and what that did to the tables. */
  datatype Resolved = Resolved(after: Tables, user: UserId)

  /** The verified identity takes the account over: no password, no other identity, no session, a new version. */
  function TakenOver(t: Tables, u: UserId): Tables
    requires u in t.users
  {
    Bumped(WithoutTokens(WithPassword(WithoutIdentities(t, u), u, None), u), u)
  }

  function AttachIdentity(t: Tables, u: UserId, identity: Identity): Result<Resolved, AccountError> {
    if identity in t.identities then Err(IdentityInUse)
    else Ok(Resolved(t.(identities := t.identities[identity := u]), u))
  }

  /** `byEmail` is the account of that email, if any; `newUser` the id of an account created here. */
  function ResolveByEmail(t: Tables, identity: Identity, email: string, verified: bool, byEmail: Option<UserId>, newUser: UserId): Result<Resolved, AccountError> {
    if email == "" then Err(EmailMissing)
    else if !verified then Err(EmailUnverified)
    else if byEmail.Some? && byEmail.value in t.users then AttachIdentity(TakenOver(t, byEmail.value), byEmail.value, identity)
    else AttachIdentity(t.(users := t.users[newUser := User(email, None, 0)]), newUser, identity)
  }

  /** `seen` is the owner of the identity read before the account was locked; it is read again under the lock. */
  function ResolveUser(t: Tables, identity: Identity, seen: Option<UserId>, email: string, verified: bool, byEmail: Option<UserId>, newUser: UserId)
    : Result<Resolved, AccountError>
  {
    if seen.Some? && seen.value !in t.users then Err(AccountMissing)
    else if seen.Some? && identity in t.identities then
      (if t.identities[identity] == seen.value then Ok(Resolved(t, seen.value)) else Err(IdentityMoved))
    else ResolveByEmail(t, identity, email, verified, byEmail, newUser)
  }

  function SignIn(t: Tables, identity: Identity, seen: Option<UserId>, email: string, verified: bool, byEmail: Option<UserId>, newUser: UserId, newHash: Hash)
    : Result<Resolved, AccountError>
  {
    match ResolveUser(t, identity, seen, email, verified, byEmail, newUser)
    case Err(e) => Err(e)
    case Ok(r) =>
      if r.user !in r.after.users then Err(AccountMissing)
      else Ok(Resolved(Issued(r.after, r.user, r.after.users[r.user].version, newHash), r.user))
  }
}
