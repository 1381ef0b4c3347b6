/**
 The account transactions statement by statement, against the functions of Accounts
 (server/internal/user/handler.go, server/internal/user/profile.go,
 server/internal/oidc/handler.go). A rolled-back transaction leaves the tables as they were.
 */
module AccountStore {
  import opened Wrappers
  import A = Accounts

  class Store {
    var users: map<A.UserId, A.User>
    var identities: map<A.Identity, A.UserId>
    var tokens: map<A.Hash, A.TokenRow>

    ghost function State(): A.Tables
      reads this
    {
      A.Tables(users, identities, tokens)
    }

    constructor ()
      ensures State() == A.Tables(map[], map[], map[])
    {
      users, identities, tokens := map[], map[], map[];
    }

    method DeleteTokensOf(u: A.UserId)
      modifies `tokens
      ensures State() == A.WithoutTokens(old(State()), u)
    {
      tokens := map h | h in tokens && tokens[h].user != u :: tokens[h];
    }

    method DeleteIdentitiesOf(u: A.UserId)
      modifies `identities
      ensures State() == A.WithoutIdentities(old(State()), u)
    {
      identities := map i | i in identities && identities[i] != u :: identities[i];
    }

    method BumpTokenVersion(u: A.UserId) returns (version: nat)
      requires u in users
      modifies `users
      ensures State() == A.Bumped(old(State()), u) && version == old(users)[u].version + 1
    {
      version := users[u].version + 1;
      users := users[u := users[u].(version := version)];
    }

    /** Spends the token before comparing versions, so a stale one cannot be tried again. */
    method Refresh(hash: A.Hash, newHash: A.Hash) returns (issued: Option<A.TokenRow>, known: bool)
      modifies `tokens
      ensures A.Refresh(old(State()), hash, newHash) ==
        if !known then A.UnknownToken
        else if issued.None? then A.StaleToken(State())
        else A.Refreshed(State(), issued.value.user, issued.value.version)
      ensures !known ==> State() == old(State()) && issued.None?
    {
      if hash !in tokens || tokens[hash].user !in users {
        return None, false;
      }
      var u := users[tokens[hash].user];
      var row := tokens[hash];
      tokens := map h | h in tokens && h != hash :: tokens[h];
      if row.version != u.version {
        return None, true;
      }
      tokens := tokens[newHash := A.TokenRow(row.user, u.version)];
      return Some(A.TokenRow(row.user, u.version)), true;
    }

    method ChangePassword(u: A.UserId, version: nat, seen: Option<A.Password>, password: A.Password, newHash: A.Hash) returns (done: bool)
      modifies this
      ensures A.ChangePassword(old(State()), u, version, seen, password, newHash) == if done then Some(State()) else None
      ensures !done ==> State() == old(State())
    {
      if u !in users || users[u].version != version || users[u].password != seen {
        return false;
      }
      users := users[u := users[u].(password := Some(password))];
      DeleteTokensOf(u);
      var bumped := BumpTokenVersion(u);
      tokens := tokens[newHash := A.TokenRow(u, bumped)];
      return true;
    }

    /** Counts in a loop the identities of one account that can still sign in. */
    method UsableIdentities(c: A.Settings, u: A.UserId) returns (n: nat)
      ensures n == |A.UsableIdentities(c, State(), u)|
    {
      n := 0;
      var rest := identities.Keys;
      ghost var counted: set<A.Identity> := {};
      while rest != {}
        invariant rest <= identities.Keys
        invariant counted == A.UsableIdentities(c, State(), u) - rest
        invariant n == |counted|
      {
        var i :| i in rest;
        rest := rest - {i};
        if identities[i] == u && A.IdentityActive(c, i.issuer) {
          n, counted := n + 1, counted + {i};
        }
      }
      assert counted == A.UsableIdentities(c, State(), u);
    }

    /** Deletes first and counts what is left, so two concurrent unlinks cannot both pass the guard. */
    method UnlinkIdentity(c: A.Settings, u: A.UserId, version: nat, identity: A.Identity) returns (error: Option<A.AccountError>)
      modifies `identities
      ensures error.None? ==> A.UnlinkIdentity(c, old(State()), u, version, identity) == Ok(State())
      ensures error.Some? ==> State() == old(State()) && A.UnlinkIdentity(c, old(State()), u, version, identity) == Err(error.value)
    {
      if u !in users || users[u].version != version {
        return Some(A.SessionRevoked);
      }
      if identity !in identities || identities[identity] != u {
        return Some(A.IdentityNotFound);
      }
      var before := identities;
      identities := map i | i in identities && i != identity :: identities[i];
      var remaining := UsableIdentities(c, u);
      if !A.HasLoginMethod(users[u].password.Some?, c.passwordEnabled, remaining) {
        identities := before;
        return Some(A.OnlyWayToSignIn);
      }
      return None;
    }

    method LinkIdentity(u: A.UserId, version: nat, identity: A.Identity) returns (error: Option<A.AccountError>)
      modifies `identities
      ensures error.None? ==> A.LinkIdentity(old(State()), u, version, identity) == Ok(State())
      ensures error.Some? ==> State() == old(State()) && A.LinkIdentity(old(State()), u, version, identity) == Err(error.value)
    {
      if u !in users || users[u].version != version {
        return Some(A.SessionRevoked);
      }
      if identity in identities {
        if identities[identity] != u {
          return Some(A.IdentityInUse);
        }
        return None;
      }
      identities := identities[identity := u];
      return None;
    }

    /** The email match: take the account over, or create one; then attach the identity. */
    method ResolveByEmail(identity: A.Identity, email: string, verified: bool, byEmail: Option<A.UserId>, newUser: A.UserId)
      returns (r: Result<A.UserId, A.AccountError>)
      modifies this
      ensures r.Ok? ==> A.ResolveByEmail(old(State()), identity, email, verified, byEmail, newUser) == Ok(A.Resolved(State(), r.value))
      ensures r.Err? ==> State() == old(State()) && A.ResolveByEmail(old(State()), identity, email, verified, byEmail, newUser) == Err(r.error)
      ensures r.Ok? ==> r.value in users
    {
      if email == "" {
        return Err(A.EmailMissing);
      }
      if !verified {
        return Err(A.EmailUnverified);
      }
      var (usersBefore, identitiesBefore, tokensBefore) := (users, identities, tokens);
      var u := newUser;
      if byEmail.Some? && byEmail.value in users {
        u := byEmail.value;
        DeleteIdentitiesOf(u);
        if users[u].password.Some? {
          users := users[u := users[u].(password := None)];
        }
        assert State() == A.WithPassword(A.WithoutIdentities(old(State()), u), u, None);
        DeleteTokensOf(u);
        var version := BumpTokenVersion(u);
        assert State() == A.TakenOver(old(State()), u);
      } else {
        users := users[newUser := A.User(email, None, 0)];
      }
      if identity in identities {
        users, identities, tokens := usersBefore, identitiesBefore, tokensBefore;
        return Err(A.IdentityInUse);
      }
      identities := identities[identity := u];
      return Ok(u);
    }

    /** `seen` was read before the lock; the identity is read again here, under it. */
    method SignIn(identity: A.Identity, seen: Option<A.UserId>, email: string, verified: bool, byEmail: Option<A.UserId>,
                  newUser: A.UserId, newHash: A.Hash)
      returns (r: Result<A.UserId, A.AccountError>)
      modifies this
      ensures r.Ok? ==> A.SignIn(old(State()), identity, seen, email, verified, byEmail, newUser, newHash) == Ok(A.Resolved(State(), r.value))
      ensures r.Err? ==> State() == old(State()) && A.SignIn(old(State()), identity, seen, email, verified, byEmail, newUser, newHash) == Err(r.error)
    {
      if seen.Some? && seen.value !in users {
        return Err(A.AccountMissing);
      }
      if seen.Some? && identity in identities {
        if identities[identity] != seen.value {
          return Err(A.IdentityMoved);
        }
        r := Ok(seen.value);
      } else {
        r := ResolveByEmail(identity, email, verified, byEmail, newUser);
        if r.Err? {
          return r;
        }
      }
      tokens := tokens[newHash := A.TokenRow(r.value, users[r.value].version)];
    }
  }
}
