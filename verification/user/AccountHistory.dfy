/**
 Who may sign in as whom, and with which password, after any run of the events of Sessions:
 identities are earned by a link flow or a verified email, passwords are the last one set, and
 nobody but its owner changes an account (server/internal/oidc/handler.go,
 server/internal/user/handler.go, server/internal/user/profile.go).
 */
module AccountHistory {
  import opened Wrappers
  import opened Accounts
  import opened Sessions

  // ---------------------------------------------------------------- one sign-on

  /** The identity is still that of the account it was read as. */
  ghost predicate Known(t: Tables, identity: Identity, seen: Option<UserId>) {
    seen.Some? && seen.value in t.users && identity in t.identities && t.identities[identity] == seen.value
  }

  /** The identity may be matched by email: nobody has it, or the account about to be taken over, and its reader saw nobody. */
  ghost predicate FreeToClaim(t: Tables, identity: Identity, seen: Option<UserId>, byEmail: Option<UserId>) {
    && (seen.Some? ==> seen.value in t.users && identity !in t.identities)
    && (identity in t.identities ==> byEmail == Some(t.identities[identity]))
  }

  /**
   A sign-on succeeds exactly with an identity still known under the lock, which then changes no account
   and no identity, or with a verified email for an identity free to claim.
   */
  lemma SignInExactlyWhen(t: Tables, identity: Identity, seen: Option<UserId>, email: string, verified: bool,
                          byEmail: Option<UserId>, newUser: UserId, newHash: Hash)
    requires FoundByEmail(t, email, byEmail)
    ensures
      var r := SignIn(t, identity, seen, email, verified, byEmail, newUser, newHash);
      && (r.Ok? <==> Known(t, identity, seen) || (FreeToClaim(t, identity, seen, byEmail) && email != "" && verified))
      && (Known(t, identity, seen) ==>
           r == Ok(Resolved(t.(tokens := t.tokens[newHash := TokenRow(seen.value, t.users[seen.value].version)]), seen.value)))
      && (r.Ok? && !Known(t, identity, seen) ==> r.value.user == if byEmail.Some? then byEmail.value else newUser)
      && (r.Ok? && !verified ==> r.value.after.users == t.users && r.value.after.identities == t.identities)
      && (seen.Some? && seen.value in t.users && identity in t.identities && t.identities[identity] != seen.value ==> r == Err(IdentityMoved))
  {
  }

  /** A sign-on by email leaves its account without a password, with that identity alone, and with one session. */
  lemma ClaimedByEmail(t: Tables, identity: Identity, seen: Option<UserId>, email: string, verified: bool,
                       byEmail: Option<UserId>, newUser: UserId, newHash: Hash)
    requires FoundByEmail(t, email, byEmail) && FreeToClaim(t, identity, seen, byEmail) && email != "" && verified
    requires newUser !in t.users && forall i :: i in t.identities ==> t.identities[i] in t.users
    ensures
      var r := SignIn(t, identity, seen, email, verified, byEmail, newUser, newHash);
      r.Ok? && var (u, after) := (r.value.user, r.value.after);
      && var version := if byEmail.Some? then t.users[u].version + 1 else 0;
      && after.users == t.users[u := User(email, None, version)]
      && (forall i :: (i in after.identities && after.identities[i] == u) <==> i == identity)
      && (forall i :: i != identity && i in t.identities && t.identities[i] != u ==> i in after.identities && after.identities[i] == t.identities[i])
      && (forall i :: i != identity && i in after.identities ==> i in t.identities && after.identities[i] == t.identities[i])
      && newHash in after.tokens && after.tokens[newHash] == TokenRow(u, version)
      && (forall h :: h != newHash ==>
           (h in after.tokens <==> h in t.tokens && (byEmail.Some? ==> t.tokens[h].user != u)) && (h in after.tokens ==> after.tokens[h] == t.tokens[h]))
  {
  }

  /** A link succeeds exactly for the version the flow began with and an identity nobody else has, and then the identity signs in. */
  lemma LinkedIdentitySignsIn(t: Tables, u: UserId, version: nat, identity: Identity, email: string, verified: bool,
                              byEmail: Option<UserId>, newUser: UserId, newHash: Hash)
    ensures
      var r := LinkIdentity(t, u, version, identity);
      && (r.Ok? <==> u in t.users && t.users[u].version == version && (identity in t.identities ==> t.identities[identity] == u))
      && (r.Ok? ==>
           && r.value.users == t.users && r.value.tokens == t.tokens
           && (forall i :: i in r.value.identities <==> i == identity || i in t.identities)
           && (forall i :: i != identity && i in t.identities ==> r.value.identities[i] == t.identities[i])
           && var s := SignIn(r.value, identity, Some(u), email, verified, byEmail, newUser, newHash);
           s.Ok? && s.value.user == u && s.value.after.users == t.users && s.value.after.identities == r.value.identities)
  {
  }

  /** An unlinked identity no longer signs in by itself. */
  lemma UnlinkedIdentityIsOut(c: Settings, t: Tables, u: UserId, version: nat, identity: Identity, seen: Option<UserId>,
                              email: string, byEmail: Option<UserId>, newUser: UserId, newHash: Hash)
    requires UnlinkIdentity(c, t, u, version, identity).Ok?
    ensures
      var after := UnlinkIdentity(c, t, u, version, identity).value;
      && identity in t.identities && identity !in after.identities && after.users == t.users && after.tokens == t.tokens
      && (forall i :: i != identity ==> (i in after.identities <==> i in t.identities) && (i in after.identities ==> after.identities[i] == t.identities[i]))
      && SignIn(after, identity, seen, email, false, byEmail, newUser, newHash).Err?
  {
  }

  // ---------------------------------------------------------------- one password change

  /** A change is committed exactly for a current request that knew the password, if the account is still as it was seen. */
  ghost predicate MayChange(c: Settings, s: System, request: Session, current: Password) {
    && c.passwordEnabled && request in s.requests && (request.password.None? || request.password == Some(current))
    && request.stamp.user in s.tables.users
    && s.tables.users[request.stamp.user].version == request.stamp.version
    && s.tables.users[request.stamp.user].password == request.password
  }

  lemma PasswordChangesExactlyWhen(c: Settings, s: System, request: Session, current: Password, password: Password)
    ensures
      var (u, t) := (request.stamp.user, Step(c, s, SetPassword(request, current, password)));
      && (!MayChange(c, s, request, current) ==> t == s.(now := s.now + 1))
      && (MayChange(c, s, request, current) ==>
           && t.tables.users == s.tables.users[u := User(s.tables.users[u].email, Some(password), s.tables.users[u].version + 1)]
           && t.tables.identities == s.tables.identities
           && s.next in t.tables.tokens && t.tables.tokens[s.next] == TokenRow(u, s.tables.users[u].version + 1)
           && (forall h :: h != s.next ==>
                (h in t.tables.tokens <==> h in s.tables.tokens && s.tables.tokens[h].user != u)
                && (h in t.tables.tokens ==> t.tables.tokens[h] == s.tables.tokens[h])))
  {
  }

  // ---------------------------------------------------------------- who changes an account

  /** The event was made for the account: on a request or flow of its own, or by a verified sign-on with its email. */
  ghost predicate OfTheOwner(s: System, e: Event, u: UserId) {
    || (e.SetPassword? && e.request in s.requests && e.request.stamp.user == u && KnowsPassword(e.request.password, e.current))
    || (e.Unlink? && e.request in s.requests && e.request.stamp.user == u)
    || (e.FinishLink? && e.flow in s.flows && e.flow.user == u)
    || (e.SsoLogin? && e.verified && e.email != "" && OwnsEmail(s.tables, u, e.email))
  }

  ghost function IdentitiesOf(t: Tables, u: UserId): set<Identity> {
    set i | i in t.identities && t.identities[i] == u
  }

  ghost predicate SameAccount(t: Tables, after: Tables, u: UserId)
    requires u in t.users
  {
    u in after.users && after.users[u] == t.users[u] && IdentitiesOf(after, u) == IdentitiesOf(t, u)
  }

  lemma SsoChangesOnlyItsOwn(s: System, identity: Identity, seen: Option<UserId>, email: string, verified: bool, byEmail: Option<UserId>, u: UserId)
    requires FoundByEmail(s.tables, email, byEmail) && u in s.tables.users && s.next !in s.tables.users
    requires !SameAccount(s.tables, SsoStep(s, identity, seen, email, verified, byEmail).tables, u)
    ensures verified && email != "" && OwnsEmail(s.tables, u, email)
  {
  }

  /** No event but one of its owner changes an account's row or identities. */
  lemma OnlyOwnersChangeAccounts(c: Settings, s: System, e: Event, u: UserId)
    requires TokensFit(s) && u in s.tables.users && !SameAccount(s.tables, Step(c, s, e).tables, u)
    ensures OfTheOwner(s, e, u)
  {
    hide TokensFit, SsoStep;
    UsersAreOld(s);
    if e.SsoLogin? && FoundByEmail(s.tables, e.email, e.byEmail) {
      SsoChangesOnlyItsOwn(s.(now := s.now + 1), e.identity, e.seen, e.email, e.verified, e.byEmail, u);
    }
  }

  lemma UsersAreOld(s: System)
    requires TokensFit(s)
    ensures s.next !in s.tables.users
  {
  }

  // ---------------------------------------------------------------- identities over runs

  /** Event `k` attached the identity: a link flow of the account, or a sign-on with the account's verified email. */
  ghost predicate Earns(c: Settings, events: seq<Event>, k: nat, i: Identity, u: UserId, email: string)
    requires k < |events|
  {
    var (s, e) := (After(c, events[..k]), events[k]);
    || (e.FinishLink? && e.identity == i && e.flow in s.flows && e.flow.user == u)
    || (e.SsoLogin? && e.identity == i && e.verified && e.email == email && email != "")
  }

  /** How a step may bring an identity to an account. */
  lemma IdentityArrives(c: Settings, s: System, e: Event, i: Identity)
    requires TokensFit(s) && i in Step(c, s, e).tables.identities
    requires i !in s.tables.identities || s.tables.identities[i] != Step(c, s, e).tables.identities[i]
    ensures
      var (t, u) := (Step(c, s, e).tables, Step(c, s, e).tables.identities[i]);
      || (e.FinishLink? && e.identity == i && e.flow in s.flows && e.flow.user == u)
      || (e.SsoLogin? && e.identity == i && e.verified && e.email != "" && u in t.users && t.users[u].email == e.email)
  {
    hide TokensFit, RefreshStep, SsoStep;
    var now := s.(now := s.now + 1);
    if e.SsoLogin? && FoundByEmail(now.tables, e.email, e.byEmail) {
      UsersAreOld(s);
      SsoBrings(now, e.identity, e.seen, e.email, e.verified, e.byEmail, i);
    } else if e.RefreshTokens? {
      RefreshKeepsAccounts(now, e.hash);
    }
  }

  lemma SsoBrings(s: System, identity: Identity, seen: Option<UserId>, email: string, verified: bool, byEmail: Option<UserId>, i: Identity)
    requires FoundByEmail(s.tables, email, byEmail) && s.next !in s.tables.users
    ensures
      var t := SsoStep(s, identity, seen, email, verified, byEmail).tables;
      i in t.identities && (i !in s.tables.identities || s.tables.identities[i] != t.identities[i]) ==>
        i == identity && verified && email != "" && t.identities[i] in t.users && t.users[t.identities[i]].email == email
  {
  }

  lemma RefreshKeepsAccounts(s: System, hash: Hash)
    ensures RefreshStep(s, hash).tables.users == s.tables.users && RefreshStep(s, hash).tables.identities == s.tables.identities
  {
  }

  lemma EmailsStay(c: Settings, s: System, e: Event, u: UserId)
    requires TokensFit(s) && u in s.tables.users
    ensures u in Step(c, s, e).tables.users && Step(c, s, e).tables.users[u].email == s.tables.users[u].email
  {
    hide TokensFit;
    UsersAreOld(s);
  }

  ghost predicate OwnersExist(t: Tables) {
    forall i :: i in t.identities ==> t.identities[i] in t.users
  }

  lemma {:induction false} IdentitiesHaveOwners(c: Settings, events: seq<Event>)
    ensures OwnersExist(After(c, events).tables)
  {
    if events != [] {
      var (s, e) := (After(c, events[..|events| - 1]), events[|events| - 1]);
      IdentitiesHaveOwners(c, events[..|events| - 1]);
      RunsAreGood(c, events[..|events| - 1]);
      GoodHasTokens(s);
      hide Good, Step, TokensFit;
      forall i | i in Step(c, s, e).tables.identities ensures Step(c, s, e).tables.identities[i] in Step(c, s, e).tables.users {
        if i in s.tables.identities && s.tables.identities[i] == Step(c, s, e).tables.identities[i] {
          EmailsStay(c, s, e, s.tables.identities[i]);
        } else {
          IdentityArrives(c, s, e, i);
          FlowsHaveUsers(s);
          if e.FinishLink? { EmailsStay(c, s, e, e.flow.user); }
        }
      }
    }
  }

  lemma FlowsHaveUsers(s: System)
    requires Good(s)
    ensures forall f :: f in s.flows ==> f.user in s.tables.users
  {
    assert forall f :: f in s.flows ==> Dated(s, f);
  }

  /** After any run every identity was attached to its account by a link flow of that account or by a verified sign-on with its email. */
  lemma {:induction false} IdentitiesAreEarned(c: Settings, events: seq<Event>, i: Identity)
    requires i in After(c, events).tables.identities
    ensures
      var t := After(c, events).tables;
      && t.identities[i] in t.users
      && exists k :: 0 <= k < |events| && Earns(c, events, k, i, t.identities[i], t.users[t.identities[i]].email)
  {
    IdentitiesHaveOwners(c, events);
    if events != [] {
      var (rest, e) := (events[..|events| - 1], events[|events| - 1]);
      var (s, t) := (After(c, rest), After(c, events));
      RunsAreGood(c, rest);
      GoodHasTokens(s);
      hide Good, Step, TokensFit;
      var u := t.tables.identities[i];
      if i in s.tables.identities && s.tables.identities[i] == u {
        IdentitiesAreEarned(c, rest, i);
        EmailsStay(c, s, e, u);
        var k :| 0 <= k < |rest| && Earns(c, rest, k, i, u, s.tables.users[u].email);
        assert rest[..k] == events[..k];
        assert Earns(c, events, k, i, u, t.tables.users[u].email);
      } else {
        IdentityArrives(c, s, e, i);
        assert events[..|rest|] == rest;
        assert Earns(c, events, |rest|, i, u, t.tables.users[u].email);
      }
    }
  }

  ghost predicate EmailsUnique(t: Tables) {
    forall u, v :: u in t.users && v in t.users && t.users[u].email == t.users[v].email ==> u == v
  }

  /** New accounts only come with an email that nobody had. */
  lemma AccountsArrive(c: Settings, s: System, e: Event, u: UserId)
    requires TokensFit(s) && u in Step(c, s, e).tables.users && u !in s.tables.users
    ensures u == s.next && EmailFree(s.tables, Step(c, s, e).tables.users[u].email)
  {
    hide TokensFit, RefreshStep;
    RefreshKeepsAccounts(s.(now := s.now + 1), if e.RefreshTokens? then e.hash else 0);
  }

  /** No two accounts ever share an email. */
  lemma {:induction false} EmailsAreUnique(c: Settings, events: seq<Event>)
    ensures EmailsUnique(After(c, events).tables)
  {
    if events != [] {
      var (s, e) := (After(c, events[..|events| - 1]), events[|events| - 1]);
      EmailsAreUnique(c, events[..|events| - 1]);
      RunsAreGood(c, events[..|events| - 1]);
      GoodHasTokens(s);
      hide Good, Step, TokensFit;
      forall u | u in Step(c, s, e).tables.users
        ensures u in s.tables.users ==> Step(c, s, e).tables.users[u].email == s.tables.users[u].email
        ensures u !in s.tables.users ==> u == s.next && EmailFree(s.tables, Step(c, s, e).tables.users[u].email)
      {
        if u in s.tables.users { EmailsStay(c, s, e, u); } else { AccountsArrive(c, s, e, u); }
      }
    }
  }

  // ---------------------------------------------------------------- passwords over runs

  /** What was last set for an account: at registration, by a committed change, or nothing since a takeover. */
  ghost function LastPassword(c: Settings, events: seq<Event>, u: UserId): Option<Password> {
    if events == [] then None
    else
      var (rest, e) := (events[..|events| - 1], events[|events| - 1]);
      var (s, t) := (After(c, rest), After(c, events));
      if u in s.tables.users && u in t.tables.users && t.tables.users[u].version == s.tables.users[u].version then LastPassword(c, rest, u)
      else if u in t.tables.users && (e.SetPassword? || e.Register?) then Some(e.password)
      else None
  }

  lemma PasswordsFollowEvents(c: Settings, s: System, e: Event, u: UserId)
    requires TokensFit(s) && u in Step(c, s, e).tables.users
    ensures
      var t := Step(c, s, e).tables;
      t.users[u].password ==
        if u in s.tables.users && t.users[u].version == s.tables.users[u].version then s.tables.users[u].password
        else if e.SetPassword? || e.Register? then Some(e.password)
        else None
  {
    hide TokensFit;
    UsersAreOld(s);
  }

  /** After any run an account has the password last set for it. */
  lemma {:induction false} PasswordsAreTheLastSet(c: Settings, events: seq<Event>, u: UserId)
    requires u in After(c, events).tables.users
    ensures After(c, events).tables.users[u].password == LastPassword(c, events, u)
  {
    if events != [] {
      var (s, e) := (After(c, events[..|events| - 1]), events[|events| - 1]);
      RunsAreGood(c, events[..|events| - 1]);
      GoodHasTokens(s);
      PasswordsFollowEvents(c, s, e, u);
      hide Good, Step, TokensFit;
      if u in s.tables.users { PasswordsAreTheLastSet(c, events[..|events| - 1], u); }
    }
  }

  lemma AfterOneMore(c: Settings, events: seq<Event>, e: Event)
    ensures After(c, events + [e]) == Step(c, After(c, events), e)
  {
    assert (events + [e])[..|events|] == events;
  }

  ghost predicate LogsIn(s: System, t: System, u: UserId) {
    exists l :: l in t.logins && l !in s.logins && l.user == u
  }

  lemma CheckLogsIn(c: Settings, s: System, u: UserId, password: Password)
    requires Good(s) && u in s.tables.users
    ensures LogsIn(s, Step(c, s, CheckPassword(u, password)), u) <==> c.passwordEnabled && s.tables.users[u].password == Some(password)
  {
    TimePasses(s);
    hide Good;
    var l := Stamp(u, s.tables.users[u].version, s.now + 1);
    assert l !in s.logins;
    if c.passwordEnabled && s.tables.users[u].password == Some(password) {
      assert l in Step(c, s, CheckPassword(u, password)).logins;
    }
  }

  /** A password logs in after a run exactly if it is the one last set. */
  lemma OnlyTheLastPasswordLogsIn(c: Settings, events: seq<Event>, u: UserId, password: Password)
    requires u in After(c, events).tables.users
    ensures LogsIn(After(c, events), After(c, events + [CheckPassword(u, password)]), u)
       <==> c.passwordEnabled && LastPassword(c, events, u) == Some(password)
  {
    hide Good, Step, LogsIn;
    PasswordsAreTheLastSet(c, events, u);
    AfterOneMore(c, events, CheckPassword(u, password));
    RunsAreGood(c, events);
    CheckLogsIn(c, After(c, events), u, password);
  }

  lemma VersionsGrow(c: Settings, s: System, e: Event, u: UserId)
    requires TokensFit(s) && u in s.tables.users
    ensures u in Step(c, s, e).tables.users && s.tables.users[u].version <= Step(c, s, e).tables.users[u].version
  {
    hide TokensFit;
    UsersAreOld(s);
  }

  /** Versions never fall, and while one stands the password stays. */
  lemma {:induction false} PasswordLastsUntilABump(c: Settings, events: seq<Event>, more: seq<Event>, u: UserId)
    requires u in After(c, events).tables.users
    ensures
      var (s, t) := (After(c, events).tables, After(c, events + more).tables);
      && u in t.users && s.users[u].version <= t.users[u].version
      && (s.users[u].version == t.users[u].version ==> s.users[u].password == t.users[u].password)
    decreases |more|
  {
    if more == [] {
      assert events + more == events;
      hide After;
    } else {
      var (before, e) := (events + more[..|more| - 1], more[|more| - 1]);
      assert (events + more)[..|events + more| - 1] == before;
      PasswordLastsUntilABump(c, events, more[..|more| - 1], u);
      RunsAreGood(c, before);
      GoodHasTokens(After(c, before));
      hide Good, Step, TokensFit;
      VersionsGrow(c, After(c, before), e, u);
      PasswordsFollowEvents(c, After(c, before), e, u);
    }
  }

  /** After a committed change exactly the new password logs in, for as long as no later change or takeover bumps the account. */
  lemma ChangedPasswordLogsIn(c: Settings, events: seq<Event>, request: Session, current: Password, password: Password, more: seq<Event>, tried: Password)
    requires MayChange(c, After(c, events), request, current)
    requires
      var (u, changed) := (request.stamp.user, events + [SetPassword(request, current, password)]);
      u in After(c, changed).tables.users && u in After(c, changed + more).tables.users
      && After(c, changed + more).tables.users[u].version == After(c, changed).tables.users[u].version
    ensures
      var (u, changed) := (request.stamp.user, events + [SetPassword(request, current, password)]);
      LogsIn(After(c, changed + more), After(c, changed + more + [CheckPassword(u, tried)]), u) <==> tried == password
  {
    var (u, changed) := (request.stamp.user, events + [SetPassword(request, current, password)]);
    AfterOneMore(c, events, SetPassword(request, current, password));
    PasswordChangesExactlyWhen(c, After(c, events), request, current, password);
    hide After, Step, LastPassword, LogsIn;
    PasswordLastsUntilABump(c, changed, more, u);
    PasswordsAreTheLastSet(c, changed + more, u);
    OnlyTheLastPasswordLogsIn(c, changed + more, u, tried);
  }

  // ---------------------------------------------------------------- sessions over runs

  /**
   An account registers exactly with passwords enabled and an email that is free; a login buys a pair of the
   version it read; and a pair authenticates exactly until the next bump of its account.
   */
  lemma SessionsBegin(c: Settings, events: seq<Event>, email: string, password: Password, login: Stamp, hash: Hash)
    ensures
      var s := After(c, events);
      var (registered, issued, authenticated) :=
        (Step(c, s, Register(email, password)), Step(c, s, IssueTokens(login)), Step(c, s, Authenticate(hash)));
      && registered.tables.users ==
           (if c.passwordEnabled && email != "" && EmailFree(s.tables, email) then s.tables.users[s.next := User(email, Some(password), 0)] else s.tables.users)
      && (login in s.logins ==>
           && s.next in issued.pairs && issued.pairs[s.next] == login
           && s.next in issued.tables.tokens && issued.tables.tokens[s.next] == TokenRow(login.user, login.version))
      && ((exists r :: r in authenticated.requests && r !in s.requests) <==>
           hash in s.pairs && forall b :: b in s.bumps && b.user == s.pairs[hash].user ==> b.at <= s.pairs[hash].readAt)
  {
    var s := After(c, events);
    RunsAreGood(c, events);
    hide After;
    AuthenticatesUntilABump(c, s, hash);
  }

  lemma AuthenticatesUntilABump(c: Settings, s: System, hash: Hash)
    requires Good(s)
    ensures (exists r :: r in Step(c, s, Authenticate(hash)).requests && r !in s.requests) <==>
      hash in s.pairs && forall b :: b in s.bumps && b.user == s.pairs[hash].user ==> b.at <= s.pairs[hash].readAt
  {
    TimePasses(s);
    if hash in s.pairs {
      assert Dated(s, s.pairs[hash]);
      hide Good;
      var u := s.pairs[hash].user;
      var r := Session(Stamp(u, s.tables.users[u].version, s.now + 1), s.tables.users[u].password);
      assert r !in s.requests;
      if s.pairs[hash].version == s.tables.users[u].version { assert r in Step(c, s, Authenticate(hash)).requests; }
    }
  }

  lemma GoneStaysGone(c: Settings, s: System, e: Event, hash: Hash)
    requires TokensFit(s) && hash < s.next && hash !in s.tables.tokens
    ensures hash < Step(c, s, e).next && hash !in Step(c, s, e).tables.tokens
  {
    hide TokensFit;
  }

  /** A refresh token that was spent, logged out, revoked or expired is unknown for the rest of any run. */
  lemma {:induction false} GoneForGood(c: Settings, events: seq<Event>, more: seq<Event>, hash: Hash)
    requires hash in After(c, events).pairs && hash !in After(c, events).tables.tokens
    ensures hash < After(c, events + more).next && hash !in After(c, events + more).tables.tokens
    ensures Refresh(After(c, events + more).tables, hash, After(c, events + more).next) == UnknownToken
    decreases |more|
  {
    RunsAreGood(c, events + more);
    if more == [] {
      assert events + more == events;
      GoodHasTokens(After(c, events));
      hide Good;
    } else {
      var before := events + more[..|more| - 1];
      assert (events + more)[..|events + more| - 1] == before;
      GoneForGood(c, events, more[..|more| - 1], hash);
      RunsAreGood(c, before);
      GoodHasTokens(After(c, before));
      hide Good, Step, TokensFit;
      GoneStaysGone(c, After(c, before), more[|more| - 1], hash);
    }
  }
}
