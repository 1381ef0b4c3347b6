/**
 Every interleaving of logins, refreshes, password changes, links, unlinks and single
 sign-on takeovers. A handler that reads an account before it locks it is two events with
 a remembered stamp, so requests authorised against an old state do arrive later.
 */
module Sessions {
  import opened Wrappers
  import opened Accounts

  /** The version an account had when some request read it, and when that was. */
  datatype Stamp = Stamp(user: UserId, version: nat, readAt: nat)

  /** A request that presented a current access token, and the account it saw. */
  datatype Session = Session(stamp: Stamp, password: Option<Password>)

  /** One authorised action: it acted at `at` on the strength of a stamp. */
  datatype Act = Act(stamp: Stamp, at: nat)

  datatype Bump = Bump(user: UserId, at: nat)

  /**
   `pairs` are issued token pairs by refresh hash; `logins`, `requests` and `flows` are password logins,
   authenticated requests and link flows under way. `acts`, `bumps` and `spent` record what happened; no guard reads them.
   */
  datatype System = System(tables: Tables, pairs: map<Hash, Stamp>, logins: set<Stamp>, requests: set<Session>, flows: set<Stamp>,
                           now: nat, next: nat, acts: set<Act>, bumps: set<Bump>, spent: seq<Hash>)

  datatype Event =
    | Register(email: string, password: Password)
    | CheckPassword(user: UserId, password: Password)
    | IssueTokens(login: Stamp)
    | Authenticate(hash: Hash)
    | RefreshTokens(hash: Hash)
    | Logout(hash: Hash)
    | SetPassword(request: Session, current: Password, password: Password)
    | Unlink(request: Session, identity: Identity)
    | StartLink(request: Session)
    | FinishLink(flow: Stamp, identity: Identity)
    | SsoLogin(identity: Identity, seen: Option<UserId>, email: string, verified: bool, byEmail: Option<UserId>)
    | Expire(hash: Hash)

  const START := System(Tables(map[], map[], map[]), map[], {}, {}, {}, 0, 0, {}, {}, [])

  ghost predicate EmailFree(t: Tables, email: string) {
    forall u :: u in t.users ==> t.users[u].email != email
  }

  /** The account an email lookup finds. */
  ghost predicate FoundByEmail(t: Tables, email: string, found: Option<UserId>) {
    match found
    case Some(u) => OwnsEmail(t, u, email)
    case None => EmailFree(t, email)
  }

  function Reading(s: System, u: UserId): Stamp
    requires u in s.tables.users
  {
    Stamp(u, s.tables.users[u].version, s.now)
  }

  /** A correct current password is asked for only where there is one. */
  predicate KnowsPassword(seen: Option<Password>, current: Password) {
    seen.None? || seen == Some(current)
  }

  ghost function RefreshStep(s: System, hash: Hash): System {
    match Refresh(s.tables, hash, s.next)
    case UnknownToken => s
    case StaleToken(after) => s.(tables := after, spent := s.spent + [hash])
    case Refreshed(after, u, version) =>
      s.(tables := after, spent := s.spent + [hash], next := s.next + 1,
         pairs := s.pairs[s.next := Stamp(u, version, s.now)],
         acts := s.acts + if hash in s.pairs then {Act(s.pairs[hash], s.now)} else {})
  }

  ghost function PasswordStep(c: Settings, s: System, request: Session, current: Password, password: Password): System {
    var u := request.stamp.user;
    if !c.passwordEnabled || request !in s.requests || !KnowsPassword(request.password, current) then s
    else match ChangePassword(s.tables, u, request.stamp.version, request.password, password, s.next)
      case None => s
      case Some(after) =>
        s.(tables := after, next := s.next + 1, pairs := s.pairs[s.next := Stamp(u, request.stamp.version + 1, s.now)],
           acts := s.acts + {Act(request.stamp, s.now)}, bumps := s.bumps + {Bump(u, s.now)})
  }

  ghost function SsoStep(s: System, identity: Identity, seen: Option<UserId>, email: string, verified: bool, byEmail: Option<UserId>): System {
    match SignIn(s.tables, identity, seen, email, verified, byEmail, s.next, s.next + 1)
    case Err(_) => s
    case Ok(r) =>
      var version := r.after.users[r.user].version;
      s.(tables := r.after, next := s.next + 2, pairs := s.pairs[s.next + 1 := Stamp(r.user, version, s.now)],
         bumps := if r.user in s.tables.users && version != s.tables.users[r.user].version then s.bumps + {Bump(r.user, s.now)} else s.bumps)
  }

  ghost function Attempt(c: Settings, s: System, e: Event): System {
    match e
    case Register(email, password) =>
      if c.passwordEnabled && email != "" && EmailFree(s.tables, email)
      then s.(tables := s.tables.(users := s.tables.users[s.next := User(email, Some(password), 0)]), next := s.next + 1,
              logins := s.logins + {Stamp(s.next, 0, s.now)})
      else s
    case CheckPassword(u, password) =>
      if c.passwordEnabled && u in s.tables.users && s.tables.users[u].password == Some(password)
      then s.(logins := s.logins + {Reading(s, u)})
      else s
    case IssueTokens(login) =>
      if login in s.logins
      then s.(tables := Issued(s.tables, login.user, login.version, s.next), next := s.next + 1, pairs := s.pairs[s.next := login])
      else s
    case Authenticate(hash) =>
      if hash in s.pairs && s.pairs[hash].user in s.tables.users && s.tables.users[s.pairs[hash].user].version == s.pairs[hash].version
      then s.(requests := s.requests + {Session(Reading(s, s.pairs[hash].user), s.tables.users[s.pairs[hash].user].password)},
              acts := s.acts + {Act(s.pairs[hash], s.now)})
      else s
    case RefreshTokens(hash) => RefreshStep(s, hash)
    case Logout(hash) => s.(tables := s.tables.(tokens := map h | h in s.tables.tokens && h != hash :: s.tables.tokens[h]))
    case SetPassword(request, current, password) => PasswordStep(c, s, request, current, password)
    case Unlink(request, identity) =>
      if request !in s.requests then s
      else (match UnlinkIdentity(c, s.tables, request.stamp.user, request.stamp.version, identity)
            case Err(_) => s
            case Ok(after) => s.(tables := after, acts := s.acts + {Act(request.stamp, s.now)}))
    case StartLink(request) =>
      if request in s.requests && request.stamp.user in s.tables.users && s.tables.users[request.stamp.user].version == request.stamp.version
      then s.(flows := s.flows + {Reading(s, request.stamp.user)}, acts := s.acts + {Act(request.stamp, s.now)})
      else s
    case FinishLink(flow, identity) =>
      if flow !in s.flows then s
      else (match LinkIdentity(s.tables, flow.user, flow.version, identity)
            case Err(_) => s
            case Ok(after) => s.(tables := after, acts := s.acts + {Act(flow, s.now)}))
    case SsoLogin(identity, seen, email, verified, byEmail) =>
      if FoundByEmail(s.tables, email, byEmail) then SsoStep(s, identity, seen, email, verified, byEmail) else s
    case Expire(hash) => s.(tables := s.tables.(tokens := map h | h in s.tables.tokens && h != hash :: s.tables.tokens[h]))
  }

  /** Every event takes its place in time. */
  ghost function Step(c: Settings, s: System, e: Event): System {
    Attempt(c, s.(now := s.now + 1), e)
  }

  ghost function After(c: Settings, events: seq<Event>): System {
    if events == [] then START else Step(c, After(c, events[..|events| - 1]), events[|events| - 1])
  }

  // ---------------------------------------------------------------- the invariant

  /** A stamp's version is current exactly if no bump of the account came after it was read. */
  ghost predicate Dated(s: System, st: Stamp) {
    && st.user in s.tables.users
    && st.version <= s.tables.users[st.user].version
    && st.readAt <= s.now
    && (st.version == s.tables.users[st.user].version <==> forall b :: b in s.bumps && b.user == st.user ==> b.at <= st.readAt)
  }

  ghost predicate StampsDated(s: System) {
    && (forall h :: h in s.pairs ==> Dated(s, s.pairs[h]))
    && (forall l :: l in s.logins ==> Dated(s, l))
    && (forall r :: r in s.requests ==> Dated(s, r.stamp))
    && (forall f :: f in s.flows ==> Dated(s, f))
    && (forall b :: b in s.bumps ==> b.at <= s.now && b.user in s.tables.users)
  }

  /** Stored tokens are halves of issued pairs, spent ones are gone, and new ids are unused. */
  ghost predicate TokensFit(s: System) {
    && (forall h :: h in s.tables.tokens ==>
         h in s.pairs && s.tables.tokens[h] == TokenRow(s.pairs[h].user, s.pairs[h].version) && h !in s.spent)
    && (forall h :: h in s.pairs ==> h < s.next)
    && (forall u :: u in s.tables.users ==> u < s.next)
    && (forall i, k :: 0 <= i < k < |s.spent| ==> s.spent[i] != s.spent[k])
    && (forall h :: h in s.spent ==> h < s.next)
  }

  /** No act rests on a stamp older than a bump that came before the act. */
  ghost predicate ActsFit(s: System) {
    && (forall a :: a in s.acts ==> a.at <= s.now)
    && (forall a, b :: a in s.acts && b in s.bumps && a.stamp.user == b.user && b.at < a.at ==> b.at <= a.stamp.readAt)
  }

  ghost predicate Good(s: System) {
    StampsDated(s) && TokensFit(s) && ActsFit(s)
  }

  // ---------------------------------------------------------------- how stamps age

  /** Versions only grow, and they grow exactly with a bump at this moment. */
  ghost predicate Ages(s: System, t: System) {
    && t.now == s.now && s.bumps <= t.bumps
    && (forall u :: u in s.tables.users ==>
         && u in t.tables.users && s.tables.users[u].version <= t.tables.users[u].version
         && (t.tables.users[u].version != s.tables.users[u].version ==> Bump(u, s.now) in t.bumps))
    && (forall b :: b in t.bumps && b !in s.bumps ==>
         && b.at == s.now && b.user in s.tables.users
         && t.tables.users[b.user].version > s.tables.users[b.user].version)
  }

  /** A stamp read earlier stays correctly dated. */
  lemma StampsAge(s: System, t: System, st: Stamp)
    requires Dated(s, st) && Ages(s, t) && st.readAt < s.now
    ensures Dated(t, st)
  {
    if t.tables.users[st.user].version == s.tables.users[st.user].version {
      assert forall b :: b in t.bumps && b.user == st.user ==> b in s.bumps;
    } else {
      assert Bump(st.user, s.now) in t.bumps;
    }
  }

  /** Everything remembered was read before this moment. */
  ghost predicate Earlier(s: System) {
    && (forall h :: h in s.pairs ==> s.pairs[h].readAt < s.now)
    && (forall l :: l in s.logins ==> l.readAt < s.now)
    && (forall r :: r in s.requests ==> r.stamp.readAt < s.now)
    && (forall f :: f in s.flows ==> f.readAt < s.now)
    && (forall b :: b in s.bumps ==> b.at < s.now)
    && (forall a :: a in s.acts ==> a.at < s.now)
  }

  lemma TimePasses(s: System)
    requires Good(s)
    ensures Good(s.(now := s.now + 1)) && Earlier(s.(now := s.now + 1))
  {
  }

  /** Whatever is newly remembered is dated, the rest ages. */
  lemma StampsKeep(s: System, t: System)
    requires StampsDated(s) && Earlier(s) && Ages(s, t)
    requires forall h :: h in t.pairs ==> (h in s.pairs && t.pairs[h] == s.pairs[h]) || Dated(t, t.pairs[h])
    requires forall l :: l in t.logins ==> l in s.logins || Dated(t, l)
    requires forall r :: r in t.requests ==> r in s.requests || Dated(t, r.stamp)
    requires forall f :: f in t.flows ==> f in s.flows || Dated(t, f)
    ensures StampsDated(t)
  {
    forall st | Dated(s, st) && st.readAt < s.now ensures Dated(t, st) { StampsAge(s, t, st); }
    hide Dated;
  }

  /** A new act on a stamp that was current is younger than every earlier bump of its account. */
  lemma ActsKeep(s: System, t: System, st: Stamp)
    requires ActsFit(s) && Earlier(s) && Ages(s, t)
    requires t.acts == s.acts || (t.acts == s.acts + {Act(st, s.now)} && Dated(s, st) && st.version == s.tables.users[st.user].version)
    ensures ActsFit(t)
  {
    assert forall b :: b in t.bumps && b !in s.bumps ==> b.at == s.now;
    assert forall a :: a in t.acts ==> a.at <= s.now;
  }

  lemma Unchanged(s: System, t: System)
    requires t.tables.users == s.tables.users && t.bumps == s.bumps && t.now == s.now
    ensures Ages(s, t)
    ensures forall st :: Dated(t, st) <==> Dated(s, st)
  {
  }

  lemma ReadingIsDated(s: System, u: UserId)
    requires StampsDated(s) && u in s.tables.users
    ensures Dated(s, Reading(s, u))
  {
  }

  // ---------------------------------------------------------------- tokens

  /** Stored tokens go, nothing else about tokens changes but what is spent. */
  lemma TokensLeave(s: System, t: System)
    requires TokensFit(s) && t.pairs == s.pairs && s.next <= t.next && t.tables.users.Keys == s.tables.users.Keys
    requires forall h :: h in t.tables.tokens ==> h in s.tables.tokens && t.tables.tokens[h] == s.tables.tokens[h]
    requires t.spent == s.spent
      || exists h :: h in s.tables.tokens && h !in t.tables.tokens && t.spent == s.spent + [h]
    ensures TokensFit(t)
  {
    if t.spent != s.spent {
      var h :| h in s.tables.tokens && h !in t.tables.tokens && t.spent == s.spent + [h];
      assert forall x :: x in t.spent <==> x in s.spent || x == h;
    }
  }

  /** A new pair under a new hash, with its stored half. */
  lemma TokenArrives(s: System, t: System, hash: Hash, st: Stamp)
    requires TokensFit(s) && s.next <= hash < t.next && t.spent == s.spent
    requires t.pairs == s.pairs[hash := st]
    requires t.tables.tokens == s.tables.tokens[hash := TokenRow(st.user, st.version)]
    requires forall u :: u in t.tables.users ==> u < t.next
    ensures TokensFit(t)
  {
  }

  // ---------------------------------------------------------------- one event after another

  lemma SetAside(c: Settings, s: System, hash: Hash)
    requires Good(s) && Earlier(s)
    ensures Good(Attempt(c, s, Logout(hash))) && Good(Attempt(c, s, Expire(hash)))
  {
    var t := Attempt(c, s, Logout(hash));
    Unchanged(s, t);
    hide Dated, Ages;
    StampsKeep(s, t);
    ActsKeep(s, t, Stamp(0, 0, 0));
    hide StampsDated, ActsFit;
    TokensLeave(s, t);
  }

  lemma IssueKeeps(c: Settings, s: System, login: Stamp)
    requires Good(s) && Earlier(s)
    ensures Good(Attempt(c, s, IssueTokens(login)))
  {
    var t := Attempt(c, s, IssueTokens(login));
    if login in s.logins {
      Unchanged(s, t);
      assert Dated(s, login);
      hide Dated, Ages;
      StampsKeep(s, t);
      ActsKeep(s, t, login);
      hide StampsDated, ActsFit;
      TokenArrives(s, t, s.next, login);
    }
  }

  lemma CheckKeeps(c: Settings, s: System, u: UserId, password: Password)
    requires Good(s) && Earlier(s)
    ensures Good(Attempt(c, s, CheckPassword(u, password)))
  {
    var t := Attempt(c, s, CheckPassword(u, password));
    if u in s.tables.users {
      Unchanged(s, t);
      ReadingIsDated(s, u);
      hide Dated, Ages;
      StampsKeep(s, t);
      ActsKeep(s, t, Reading(s, u));
      hide StampsDated, ActsFit;
      TokensLeave(s, t);
    }
  }

  lemma RegisterKeeps(c: Settings, s: System, email: string, password: Password)
    requires Good(s) && Earlier(s)
    ensures Good(Attempt(c, s, Register(email, password)))
  {
    var t := Attempt(c, s, Register(email, password));
    if t != s {
      assert s.next !in s.tables.users;
      assert Ages(s, t) by { hide Dated; }
      assert Dated(t, Stamp(s.next, 0, s.now)) by { assert forall b :: b in s.bumps ==> b.user != s.next; }
      hide Dated, Ages;
      StampsKeep(s, t);
      ActsKeep(s, t, Stamp(s.next, 0, s.now));
      hide StampsDated, ActsFit;
      assert TokensFit(t);
    }
  }

  lemma AuthenticateKeeps(c: Settings, s: System, hash: Hash)
    requires Good(s) && Earlier(s)
    ensures Good(Attempt(c, s, Authenticate(hash)))
  {
    var t := Attempt(c, s, Authenticate(hash));
    if t != s {
      Unchanged(s, t);
      ReadingIsDated(s, s.pairs[hash].user);
      assert Dated(s, s.pairs[hash]);
      hide Dated, Ages;
      StampsKeep(s, t);
      ActsKeep(s, t, s.pairs[hash]);
      hide StampsDated, ActsFit;
      TokensLeave(s, t);
    }
  }

  lemma StartLinkKeeps(c: Settings, s: System, request: Session)
    requires Good(s) && Earlier(s)
    ensures Good(Attempt(c, s, StartLink(request)))
  {
    var t := Attempt(c, s, StartLink(request));
    if t != s {
      Unchanged(s, t);
      ReadingIsDated(s, request.stamp.user);
      assert Dated(s, request.stamp);
      hide Dated, Ages;
      StampsKeep(s, t);
      ActsKeep(s, t, request.stamp);
      hide StampsDated, ActsFit;
      TokensLeave(s, t);
    }
  }

  lemma LinksKeep(c: Settings, s: System, e: Event)
    requires Good(s) && Earlier(s) && (e.Unlink? || e.FinishLink?)
    ensures Good(Attempt(c, s, e))
  {
    var t := Attempt(c, s, e);
    if t != s {
      var st := if e.Unlink? then e.request.stamp else e.flow;
      assert Dated(s, st) && st.version == s.tables.users[st.user].version;
      assert t.tables.users == s.tables.users && t.tables.tokens == s.tables.tokens;
      Unchanged(s, t);
      hide Dated, Ages;
      StampsKeep(s, t);
      ActsKeep(s, t, st);
      hide StampsDated, ActsFit;
      TokensLeave(s, t);
    }
  }

  function Spent(s: System, hash: Hash): System {
    s.(tables := s.tables.(tokens := map h | h in s.tables.tokens && h != hash :: s.tables.tokens[h]), spent := s.spent + [hash])
  }

  /** A refresh spends its token; only with the current version does it issue a pair, read under the lock. */
  lemma RefreshCases(s: System, hash: Hash)
    requires Good(s)
    ensures RefreshStep(s, hash) == s || (hash in s.tables.tokens && hash in s.pairs && s.pairs[hash].user in s.tables.users
      && var (st, spent) := (s.pairs[hash], Spent(s, hash));
      if st.version != s.tables.users[st.user].version then RefreshStep(s, hash) == spent
      else RefreshStep(s, hash) == spent.(tables := Issued(spent.tables, st.user, st.version, s.next), next := s.next + 1,
                                          pairs := s.pairs[s.next := Reading(s, st.user)], acts := s.acts + {Act(st, s.now)}))
  {
    hide StampsDated, ActsFit;
  }

  lemma RefreshKeeps(s: System, hash: Hash)
    requires Good(s) && Earlier(s)
    ensures Good(RefreshStep(s, hash))
  {
    RefreshCases(s, hash);
    var t := RefreshStep(s, hash);
    if t != s {
      var st := s.pairs[hash];
      assert Dated(s, st);
      hide RefreshStep;
      ReadingIsDated(s, st.user);
      hide StampsDated;
      TokensLeave(s, Spent(s, hash));
      if t.pairs != s.pairs {
        TokenArrives(Spent(s, hash), t, s.next, Reading(s, st.user)) by { hide ActsFit; }
      }
      Unchanged(s, t);
      hide Dated, Ages, TokensFit;
      StampsKeep(s, t);
      ActsKeep(s, t, st);
    }
  }

  // ---------------------------------------------------------------- bumps

  /** An account's version goes up, its stored tokens go, and a pair is issued at the new version. */
  ghost predicate BumpsTo(s: System, t: System, u: UserId, hash: Hash) {
    && u in s.tables.users && u in t.tables.users && t.now == s.now && s.next <= hash < t.next
    && t.tables.users[u].version == s.tables.users[u].version + 1
    && t.tables.users.Keys == s.tables.users.Keys
    && (forall v :: v in s.tables.users && v != u ==> t.tables.users[v] == s.tables.users[v])
    && t.tables.tokens == (map h | h in s.tables.tokens && s.tables.tokens[h].user != u :: s.tables.tokens[h])
                          [hash := TokenRow(u, s.tables.users[u].version + 1)]
    && t.pairs == s.pairs[hash := Reading(t, u)]
    && t.logins == s.logins && t.requests == s.requests && t.flows == s.flows && t.spent == s.spent
    && t.bumps == s.bumps + {Bump(u, s.now)}
  }

  lemma BumpAges(s: System, t: System, u: UserId, hash: Hash)
    requires BumpsTo(s, t, u, hash) && Earlier(s)
    ensures Ages(s, t) && Dated(t, Reading(t, u))
  {
    assert forall b :: b in t.bumps <==> b in s.bumps || b == Bump(u, s.now);
  }

  lemma BumpTokens(s: System, t: System, u: UserId, hash: Hash)
    requires BumpsTo(s, t, u, hash) && TokensFit(s)
    ensures TokensFit(t)
  {
    forall h | h in t.tables.tokens
      ensures h in t.pairs && t.tables.tokens[h] == TokenRow(t.pairs[h].user, t.pairs[h].version) && h !in t.spent
    {
      if h != hash {
        assert h in s.tables.tokens && t.tables.tokens[h] == s.tables.tokens[h] && t.pairs[h] == s.pairs[h];
      }
    }
  }

  lemma BumpKeeps(s: System, t: System, u: UserId, hash: Hash, st: Stamp)
    requires Good(s) && Earlier(s) && BumpsTo(s, t, u, hash)
    requires t.acts == s.acts || (t.acts == s.acts + {Act(st, s.now)} && Dated(s, st) && st.version == s.tables.users[st.user].version)
    ensures Good(t)
  {
    hide StampsDated, TokensFit, ActsFit, Dated, Ages;
    BumpAges(s, t, u, hash);
    BumpTokens(s, t, u, hash);
    StampsKeep(s, t);
    ActsKeep(s, t, st);
  }

  lemma PasswordBumps(c: Settings, s: System, request: Session, current: Password, password: Password)
    requires TokensFit(s)
    ensures var (t, st) := (PasswordStep(c, s, request, current, password), request.stamp);
      t == s || (
        && request in s.requests && BumpsTo(s, t, st.user, s.next)
        && t.acts == s.acts + {Act(st, s.now)} && st.version == s.tables.users[st.user].version)
  {
  }

  lemma RequestIsDated(s: System, request: Session)
    requires StampsDated(s) && request in s.requests
    ensures Dated(s, request.stamp)
  {
    hide Dated;
  }

  lemma PasswordKeeps(c: Settings, s: System, request: Session, current: Password, password: Password)
    requires Good(s) && Earlier(s)
    ensures Good(PasswordStep(c, s, request, current, password))
  {
    hide StampsDated, TokensFit, ActsFit, BumpsTo, PasswordStep, Dated, Earlier;
    var t := PasswordStep(c, s, request, current, password);
    PasswordBumps(c, s, request, current, password);
    if t != s {
      RequestIsDated(s, request);
      BumpedUserExists(s, t, request.stamp.user, s.next);
      BumpKeeps(s, t, request.stamp.user, s.next, request.stamp);
    }
  }

  lemma BumpedUserExists(s: System, t: System, u: UserId, hash: Hash)
    requires BumpsTo(s, t, u, hash)
    ensures u in s.tables.users
  {
  }

  // ---------------------------------------------------------------- single sign-on

  /** What a takeover leaves: no password, no other identity, and only the pair it issues. */
  lemma TakeoverTables(t: Tables, u: UserId, identity: Identity, newHash: Hash)
    requires u in t.users && AttachIdentity(TakenOver(t, u), u, identity).Ok?
    ensures
      var after := Issued(AttachIdentity(TakenOver(t, u), u, identity).value.after, u, t.users[u].version + 1, newHash);
      && after.users == t.users[u := User(t.users[u].email, None, t.users[u].version + 1)]
      && after.tokens == (map h | h in t.tokens && t.tokens[h].user != u :: t.tokens[h])[newHash := TokenRow(u, t.users[u].version + 1)]
      && after.identities == (map i | i in t.identities && t.identities[i] != u :: t.identities[i])[identity := u]
  {
  }

  datatype SsoCase = Refused | KnownIdentity | Takeover | NewAccount

  /** Which of its ways a sign-on took. */
  ghost function SsoKind(s: System, identity: Identity, seen: Option<UserId>, email: string, verified: bool, byEmail: Option<UserId>): SsoCase {
    if SignIn(s.tables, identity, seen, email, verified, byEmail, s.next, s.next + 1).Err? then Refused
    else if seen.Some? && identity in s.tables.identities then KnownIdentity
    else if byEmail.Some? && byEmail.value in s.tables.users then Takeover
    else NewAccount
  }

  lemma KnownIdentityKeeps(s: System, identity: Identity, seen: Option<UserId>, email: string, verified: bool, byEmail: Option<UserId>)
    requires Good(s) && Earlier(s) && SsoKind(s, identity, seen, email, verified, byEmail) == KnownIdentity
    ensures Good(SsoStep(s, identity, seen, email, verified, byEmail))
  {
    var t := SsoStep(s, identity, seen, email, verified, byEmail);
    ReadingIsDated(s, seen.value);
    Unchanged(s, t);
    assert t.tables.tokens == s.tables.tokens[s.next + 1 := TokenRow(seen.value, s.tables.users[seen.value].version)];
    assert t.pairs == s.pairs[s.next + 1 := Reading(s, seen.value)];
    hide Dated, Ages;
    StampsKeep(s, t);
    ActsKeep(s, t, Reading(s, seen.value));
    hide StampsDated, ActsFit;
    TokenArrives(s, t, s.next + 1, Reading(s, seen.value));
  }

  lemma TakeoverKeeps(s: System, identity: Identity, seen: Option<UserId>, email: string, verified: bool, byEmail: Option<UserId>)
    requires Good(s) && Earlier(s) && SsoKind(s, identity, seen, email, verified, byEmail) == Takeover
    ensures BumpsTo(s, SsoStep(s, identity, seen, email, verified, byEmail), byEmail.value, s.next + 1)
    ensures Good(SsoStep(s, identity, seen, email, verified, byEmail))
  {
    hide Good, Earlier, SsoStep, SsoKind, BumpsTo;
    TakeoverBumps(s, identity, seen, email, verified, byEmail);
    SsoAddsNoAct(s, identity, seen, email, verified, byEmail);
    BumpKeeps(s, SsoStep(s, identity, seen, email, verified, byEmail), byEmail.value, s.next + 1, Stamp(0, 0, 0));
  }

  lemma TakeoverBumps(s: System, identity: Identity, seen: Option<UserId>, email: string, verified: bool, byEmail: Option<UserId>)
    requires Good(s) && SsoKind(s, identity, seen, email, verified, byEmail) == Takeover
    ensures byEmail.Some? && BumpsTo(s, SsoStep(s, identity, seen, email, verified, byEmail), byEmail.value, s.next + 1)
  {
    hide Good;
    TakeoverTables(s.tables, byEmail.value, identity, s.next + 1);
  }

  lemma SsoAddsNoAct(s: System, identity: Identity, seen: Option<UserId>, email: string, verified: bool, byEmail: Option<UserId>)
    ensures SsoStep(s, identity, seen, email, verified, byEmail).acts == s.acts
  {
  }

  lemma NewAccountKeeps(s: System, identity: Identity, seen: Option<UserId>, email: string, verified: bool, byEmail: Option<UserId>)
    requires Good(s) && Earlier(s) && SsoKind(s, identity, seen, email, verified, byEmail) == NewAccount
    ensures Good(SsoStep(s, identity, seen, email, verified, byEmail))
  {
    var t := SsoStep(s, identity, seen, email, verified, byEmail);
    var st := Stamp(s.next, 0, s.now);
    assert s.next !in s.tables.users;
    assert t == s.(tables := t.tables, next := s.next + 2, pairs := s.pairs[s.next + 1 := st]);
    assert t.tables.users == s.tables.users[s.next := User(email, None, 0)];
    assert t.tables.tokens == s.tables.tokens[s.next + 1 := TokenRow(s.next, 0)];
    hide SsoStep, SsoKind;
    assert Ages(s, t) by { hide Dated; }
    assert Dated(t, st) by { assert forall b :: b in s.bumps ==> b.user != s.next; }
    hide Dated, Ages;
    StampsKeep(s, t);
    ActsKeep(s, t, st);
    hide StampsDated, ActsFit;
    TokenArrives(s, t, s.next + 1, st);
  }

  lemma SsoKeeps(s: System, identity: Identity, seen: Option<UserId>, email: string, verified: bool, byEmail: Option<UserId>)
    requires Good(s) && Earlier(s)
    ensures Good(SsoStep(s, identity, seen, email, verified, byEmail))
  {
    match SsoKind(s, identity, seen, email, verified, byEmail) {
      case Refused => hide Good;
      case KnownIdentity => hide Good, SsoStep; KnownIdentityKeeps(s, identity, seen, email, verified, byEmail);
      case Takeover => hide Good, SsoStep, BumpsTo; TakeoverKeeps(s, identity, seen, email, verified, byEmail);
      case NewAccount => hide Good, SsoStep; NewAccountKeeps(s, identity, seen, email, verified, byEmail);
    }
  }

  // ---------------------------------------------------------------- the theorems

  lemma RefreshAttempt(c: Settings, s: System, hash: Hash)
    requires Good(s) && Earlier(s)
    ensures Good(Attempt(c, s, RefreshTokens(hash)))
  {
    hide Good, Earlier, RefreshStep;
    RefreshKeeps(s, hash);
  }

  lemma PasswordAttempt(c: Settings, s: System, request: Session, current: Password, password: Password)
    requires Good(s) && Earlier(s)
    ensures Good(Attempt(c, s, SetPassword(request, current, password)))
  {
    hide Good, Earlier, PasswordStep;
    PasswordKeeps(c, s, request, current, password);
  }

  lemma SsoAttempt(c: Settings, s: System, identity: Identity, seen: Option<UserId>, email: string, verified: bool, byEmail: Option<UserId>)
    requires Good(s) && Earlier(s)
    ensures Good(Attempt(c, s, SsoLogin(identity, seen, email, verified, byEmail)))
  {
    hide Good, Earlier, SsoStep, FoundByEmail;
    SsoKeeps(s, identity, seen, email, verified, byEmail);
  }

  lemma StepKeepsGood(c: Settings, s: System, e: Event)
    requires Good(s)
    ensures Good(Step(c, s, e))
  {
    hide Good, Earlier, Attempt;
    var u := s.(now := s.now + 1);
    TimePasses(s);
    match e {
      case Register(email, password) => RegisterKeeps(c, u, email, password);
      case CheckPassword(user, password) => CheckKeeps(c, u, user, password);
      case IssueTokens(login) => IssueKeeps(c, u, login);
      case Authenticate(hash) => AuthenticateKeeps(c, u, hash);
      case RefreshTokens(hash) => RefreshAttempt(c, u, hash);
      case Logout(hash) => SetAside(c, u, hash);
      case SetPassword(request, current, password) => PasswordAttempt(c, u, request, current, password);
      case Unlink(request, identity) => LinksKeep(c, u, e);
      case StartLink(request) => StartLinkKeeps(c, u, request);
      case FinishLink(flow, identity) => LinksKeep(c, u, e);
      case SsoLogin(identity, seen, email, verified, byEmail) => SsoAttempt(c, u, identity, seen, email, verified, byEmail);
      case Expire(hash) => SetAside(c, u, hash);
    }
  }

  lemma {:induction false} RunsAreGood(c: Settings, events: seq<Event>)
    ensures Good(After(c, events))
  {
    if events != [] {
      RunsAreGood(c, events[..|events| - 1]);
      hide Good, Step;
      StepKeepsGood(c, After(c, events[..|events| - 1]), events[|events| - 1]);
    }
  }

  /**
   Revocation is final: in every interleaving, nothing was refreshed, authenticated, linked, unlinked or
   changed on the strength of a stamp read before a version bump of that account that came first.
   */
  lemma RevocationIsFinal(c: Settings, events: seq<Event>)
    ensures
      var s := After(c, events);
      forall a, b :: a in s.acts && b in s.bumps && a.stamp.user == b.user && b.at < a.at ==> b.at <= a.stamp.readAt
  {
    RunsAreGood(c, events);
    hide StampsDated, TokensFit;
  }

  /** Each refresh token is spent by at most one committed refresh, and a spent one is never stored again. */
  lemma TokensAreSpentOnce(c: Settings, events: seq<Event>)
    ensures
      var s := After(c, events);
      && (forall i, k :: 0 <= i < k < |s.spent| ==> s.spent[i] != s.spent[k])
      && (forall h :: h in s.spent ==> h !in s.tables.tokens)
  {
    RunsAreGood(c, events);
    hide StampsDated, ActsFit;
  }

  /** A pair works exactly until its account's next bump: as long as it is stored, its refresh half buys a new pair exactly then. */
  lemma PairsWorkUntilTheNextBump(c: Settings, events: seq<Event>, hash: Hash)
    requires hash in After(c, events).pairs
    ensures
      var s := After(c, events);
      var st := s.pairs[hash];
      && st.user in s.tables.users
      && (st.version == s.tables.users[st.user].version <==> forall b :: b in s.bumps && b.user == st.user ==> b.at <= st.readAt)
      && (hash !in s.tables.tokens ==> Refresh(s.tables, hash, s.next) == UnknownToken)
      && (hash in s.tables.tokens ==>
           (Refresh(s.tables, hash, s.next).Refreshed? <==> forall b :: b in s.bumps && b.user == st.user ==> b.at <= st.readAt))
  {
    RunsAreGood(c, events);
    var s := After(c, events);
    assert Dated(s, s.pairs[hash]);
    hide After, StampsDated, ActsFit;
  }

  // ---------------------------------------------------------------- nobody is locked out

  ghost predicate NobodyLockedOut(c: Settings, t: Tables) {
    forall u :: u in t.users ==> CanSignIn(c, t, u)
  }

  /** Single sign-on only ever presents identities of the configured provider. */
  ghost predicate FromProvider(c: Settings, e: Event) {
    && (e.SsoLogin? ==> IdentityActive(c, e.identity.issuer))
    && (e.FinishLink? ==> IdentityActive(c, e.identity.issuer))
  }

  /** Identities only arrive, and no account loses its password. */
  lemma SignInOnlyGrows(c: Settings, t: Tables, after: Tables)
    requires NobodyLockedOut(c, t) && after.users.Keys == t.users.Keys
    requires forall u :: u in t.users && t.users[u].password.Some? ==> after.users[u].password.Some?
    requires forall i :: i in t.identities ==> i in after.identities && after.identities[i] == t.identities[i]
    ensures NobodyLockedOut(c, after)
  {
    forall u | u in after.users ensures CanSignIn(c, after, u) {
      assert CanSignIn(c, t, u);
      if UsableIdentities(c, t, u) != {} {
        var i :| i in UsableIdentities(c, t, u);
        assert i in UsableIdentities(c, after, u);
      }
    }
  }

  /** Others keep their identities and passwords; `u` can sign in anew. */
  lemma SignInElsewhere(c: Settings, t: Tables, after: Tables, u: UserId)
    requires NobodyLockedOut(c, t) && after.users.Keys == t.users.Keys + {u} && CanSignIn(c, after, u)
    requires forall v :: v in t.users && v != u ==> after.users[v] == t.users[v]
    requires forall i :: i in t.identities && t.identities[i] != u ==> i in after.identities && after.identities[i] == t.identities[i]
    ensures NobodyLockedOut(c, after)
  {
    forall v | v in after.users && v != u ensures CanSignIn(c, after, v) {
      assert CanSignIn(c, t, v);
      if UsableIdentities(c, t, v) != {} {
        var i :| i in UsableIdentities(c, t, v);
        assert i in UsableIdentities(c, after, v);
      }
    }
  }

  /** Unlinking is refused exactly when it would leave its owner without a way to sign in. */
  lemma UnlinkGuardsTheLastWayIn(c: Settings, t: Tables, u: UserId, version: nat, identity: Identity)
    requires u in t.users && t.users[u].version == version && identity in t.identities && t.identities[identity] == u
    ensures
      var after := t.(identities := map i | i in t.identities && i != identity :: t.identities[i]);
      && (UnlinkIdentity(c, t, u, version, identity) == Err(OnlyWayToSignIn) <==> !CanSignIn(c, after, u))
      && (CanSignIn(c, after, u) ==> UnlinkIdentity(c, t, u, version, identity) == Ok(after))
  {
  }

  lemma UnlinkLocksNobodyOut(c: Settings, t: Tables, u: UserId, version: nat, identity: Identity)
    requires NobodyLockedOut(c, t) && UnlinkIdentity(c, t, u, version, identity).Ok?
    ensures NobodyLockedOut(c, UnlinkIdentity(c, t, u, version, identity).value)
  {
    UnlinkGuardsTheLastWayIn(c, t, u, version, identity);
    SignInElsewhere(c, t, UnlinkIdentity(c, t, u, version, identity).value, u);
  }

  lemma AttachedCanSignIn(c: Settings, t: Tables, u: UserId, identity: Identity)
    requires u in t.users && identity in t.identities && t.identities[identity] == u && IdentityActive(c, identity.issuer)
    ensures CanSignIn(c, t, u)
  {
    assert identity in UsableIdentities(c, t, u);
  }

  lemma TakeoverLocksNobodyOut(c: Settings, s: System, identity: Identity, seen: Option<UserId>, email: string, verified: bool, byEmail: Option<UserId>)
    requires NobodyLockedOut(c, s.tables) && IdentityActive(c, identity.issuer)
    requires SsoKind(s, identity, seen, email, verified, byEmail) == Takeover
    ensures NobodyLockedOut(c, SsoStep(s, identity, seen, email, verified, byEmail).tables)
  {
    hide IdentityActive, NobodyLockedOut, CanSignIn;
    var after := SsoStep(s, identity, seen, email, verified, byEmail).tables;
    TakeoverTables(s.tables, byEmail.value, identity, s.next + 1);
    AttachedCanSignIn(c, after, byEmail.value, identity);
    SignInElsewhere(c, s.tables, after, byEmail.value);
  }

  lemma SsoLocksNobodyOut(c: Settings, s: System, identity: Identity, seen: Option<UserId>, email: string, verified: bool, byEmail: Option<UserId>)
    requires Good(s) && NobodyLockedOut(c, s.tables) && IdentityActive(c, identity.issuer)
    ensures NobodyLockedOut(c, SsoStep(s, identity, seen, email, verified, byEmail).tables)
  {
    var after := SsoStep(s, identity, seen, email, verified, byEmail).tables;
    match SsoKind(s, identity, seen, email, verified, byEmail) {
      case Refused =>
      case KnownIdentity => SignInOnlyGrows(c, s.tables, after);
      case Takeover => hide SsoStep, SsoKind, NobodyLockedOut; TakeoverLocksNobodyOut(c, s, identity, seen, email, verified, byEmail);
      case NewAccount =>
        AttachedCanSignIn(c, after, s.next, identity);
        SignInElsewhere(c, s.tables, after, s.next);
    }
  }

  lemma RegisterLocksNobodyOut(c: Settings, s: System, email: string, password: Password)
    requires TokensFit(s) && NobodyLockedOut(c, s.tables)
    ensures NobodyLockedOut(c, Attempt(c, s, Register(email, password)).tables)
  {
    var t := Attempt(c, s, Register(email, password));
    if t != s {
      hide NobodyLockedOut;
      SignInElsewhere(c, s.tables, t.tables, s.next);
    }
  }

  lemma PasswordLocksNobodyOut(c: Settings, s: System, request: Session, current: Password, password: Password)
    requires NobodyLockedOut(c, s.tables)
    ensures NobodyLockedOut(c, PasswordStep(c, s, request, current, password).tables)
  {
    hide NobodyLockedOut;
    SignInOnlyGrows(c, s.tables, PasswordStep(c, s, request, current, password).tables);
  }

  lemma RefreshLocksNobodyOut(c: Settings, s: System, hash: Hash)
    requires NobodyLockedOut(c, s.tables)
    ensures NobodyLockedOut(c, RefreshStep(s, hash).tables)
  {
    hide NobodyLockedOut;
    SignInOnlyGrows(c, s.tables, RefreshStep(s, hash).tables);
  }

  lemma AttemptLocksNobodyOut(c: Settings, s: System, e: Event)
    requires Good(s) && NobodyLockedOut(c, s.tables) && FromProvider(c, e)
    ensures NobodyLockedOut(c, Attempt(c, s, e).tables)
  {
    hide Good, NobodyLockedOut, SsoStep, RefreshStep, PasswordStep, IdentityActive, UnlinkIdentity, FoundByEmail;
    match e {
      case Register(email, password) => GoodHasTokens(s); RegisterLocksNobodyOut(c, s, email, password);
      case SsoLogin(identity, seen, email, verified, byEmail) => SsoLocksNobodyOut(c, s, identity, seen, email, verified, byEmail);
      case Unlink(request, identity) =>
        if UnlinkIdentity(c, s.tables, request.stamp.user, request.stamp.version, identity).Ok? {
          UnlinkLocksNobodyOut(c, s.tables, request.stamp.user, request.stamp.version, identity);
        }
      case SetPassword(request, current, password) => PasswordLocksNobodyOut(c, s, request, current, password);
      case RefreshTokens(hash) => RefreshLocksNobodyOut(c, s, hash);
      case _ => SignInOnlyGrows(c, s.tables, Attempt(c, s, e).tables);
    }
  }

  lemma GoodHasTokens(s: System)
    requires Good(s)
    ensures TokensFit(s)
  {
  }

  lemma StepLocksNobodyOut(c: Settings, s: System, e: Event)
    requires Good(s) && NobodyLockedOut(c, s.tables) && FromProvider(c, e)
    ensures NobodyLockedOut(c, Step(c, s, e).tables)
  {
    hide Good, NobodyLockedOut, FromProvider, Attempt;
    TimePasses(s);
    AttemptLocksNobodyOut(c, s.(now := s.now + 1), e);
  }

  /** Whatever is linked, unlinked, changed or taken over, every account keeps a way to sign in. */
  lemma {:induction false} NobodyIsEverLockedOut(c: Settings, events: seq<Event>)
    requires forall e :: e in events ==> FromProvider(c, e)
    ensures NobodyLockedOut(c, After(c, events).tables)
  {
    if events != [] {
      var shorter := events[..|events| - 1];
      assert events[|events| - 1] in events && forall e :: e in shorter ==> e in events;
      NobodyIsEverLockedOut(c, shorter);
      RunsAreGood(c, shorter);
      hide Good, Step, NobodyLockedOut, FromProvider;
      StepLocksNobodyOut(c, After(c, shorter), events[|events| - 1]);
    }
  }
}
