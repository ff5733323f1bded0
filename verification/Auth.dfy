/** Refresh-token rotation (app/modules/auth/service.py, app/modules/users/repository.py). */
module Auth {
  import opened Wrappers

  const REFRESH_SECONDS := 604800

  // Token strings and their hashes are unique, so a token is identified with its row.
  datatype Token = Token(user: nat, expires: int, revoked: bool)

  datatype AuditEntry = LoggedIn(user: nat) | Refreshed(user: nat) | LoggedOut(user: nat)

  datatype Db = Db(active: seq<bool>, tokens: seq<Token>, audit: seq<AuditEntry>)

  datatype AuthError =
    | InvalidCredentials | UserDeactivated | InvalidRefreshToken | RevokedRefreshToken
    | ExpiredRefreshToken | UserInactive

  type Outcome = Result<Db, AuthError>

  // get_refresh_token: the row of the presented string, unless it is revoked.
  function FindToken(tokens: seq<Token>, presented: Option<nat>): Option<nat> {
    if presented.Some? && presented.value < |tokens| && !tokens[presented.value].revoked then presented else None
  }

  function Issue(db: Db, user: nat, now: int): Db {
    db.(tokens := db.tokens + [Token(user, now + REFRESH_SECONDS, false)])
  }

  function Revoke(tokens: seq<Token>, t: nat): seq<Token>
    requires t < |tokens|
  {
    tokens[t := tokens[t].(revoked := true)]
  }

  // authenticate_user: `account` is the user found by email, `verified` the password check.
  function Login(db: Db, account: Option<nat>, verified: bool, now: int): Outcome {
    if account.None? || account.value >= |db.active| || !verified then Failure(InvalidCredentials)
    else if !db.active[account.value] then Failure(UserDeactivated)
    else
      var issued := Issue(db, account.value, now);
      Success(issued.(audit := db.audit + [LoggedIn(account.value)]))
  }

  // refresh_tokens: `decodes` tells whether the presented string is a valid signed token.
  function Refresh(db: Db, presented: Option<nat>, decodes: bool, now: int): Outcome {
    if !decodes then Failure(InvalidRefreshToken)
    else
      match FindToken(db.tokens, presented)
      case None => Failure(RevokedRefreshToken)
      case Some(t) =>
        var user := db.tokens[t].user;
        if db.tokens[t].expires < now then Failure(ExpiredRefreshToken)
        else if user >= |db.active| || !db.active[user] then Failure(UserInactive)
        else
          var issued := Issue(db.(tokens := Revoke(db.tokens, t)), user, now);
          Success(issued.(audit := db.audit + [Refreshed(user)]))
  }

  function Logout(db: Db, user: nat, presented: Option<nat>): Db {
    var found := FindToken(db.tokens, presented);
    var kept := if found.Some? && db.tokens[found.value].user == user then Revoke(db.tokens, found.value) else db.tokens;
    db.(tokens := kept, audit := db.audit + [LoggedOut(user)])
  }

  class AuthService {
    var active: seq<bool>
    var tokens: seq<Token>
    var audit: seq<AuditEntry>

    function State(): Db
      reads this
    {
      Db(active, tokens, audit)
    }

    constructor (active: seq<bool>)
      ensures State() == Db(active, [], [])
    {
      this.active, tokens, audit := active, [], [];
    }

    method IssueTokens(user: nat, now: int) returns (t: nat)
      modifies this`tokens
      ensures State() == Issue(old(State()), user, now) && t == |old(tokens)|
    {
      t := |tokens|;
      tokens := tokens + [Token(user, now + REFRESH_SECONDS, false)];
    }

    method AuthenticateUser(account: Option<nat>, verified: bool, now: int) returns (r: Result<nat, AuthError>)
      modifies this
      ensures match Login(old(State()), account, verified, now)
              case Success(d) => State() == d && r == Success(|old(tokens)|)
              case Failure(e) => State() == old(State()) && r == Failure(e)
      ensures r.Success? <==> account.Some? && account.value < |old(active)| && old(active)[account.value] && verified
      ensures r.Success? ==> tokens == old(tokens) + [Token(account.value, now + 604800, false)]
                             && audit == old(audit) + [LoggedIn(account.value)]
      ensures r.Failure? ==>
                r.error == if account.Some? && account.value < |old(active)| && verified then UserDeactivated
                           else InvalidCredentials
    {
      if account.None? || account.value >= |active| || !verified {
        return Failure(InvalidCredentials);
      }
      var user := account.value;
      if !active[user] {
        return Failure(UserDeactivated);
      }
      var t := IssueTokens(user, now);
      audit := audit + [LoggedIn(user)];
      r := Success(t);
    }

    // The presented token is revoked before the user is checked; when that check fails the
    // session is rolled back and the token is as good as before.
    method RefreshTokens(presented: Option<nat>, decodes: bool, now: int) returns (r: Result<nat, AuthError>)
      modifies this
      ensures match Refresh(old(State()), presented, decodes, now)
              case Success(d) => State() == d && r == Success(|old(tokens)|)
              case Failure(e) => State() == old(State()) && r == Failure(e)
      ensures r.Success? <==>
                && decodes && presented.Some? && presented.value < |old(tokens)|
                && var t := old(tokens)[presented.value];
                   !t.revoked && now <= t.expires && t.user < |old(active)| && old(active)[t.user]
      ensures r.Success? ==>
                var t := old(tokens)[presented.value];
                && tokens == old(tokens)[presented.value := t.(revoked := true)] + [Token(t.user, now + 604800, false)]
                && audit == old(audit) + [Refreshed(t.user)]
    {
      if !decodes {
        return Failure(InvalidRefreshToken);
      }
      var found := FindToken(tokens, presented);
      if found.None? {
        return Failure(RevokedRefreshToken);
      }
      var t := found.value;
      if tokens[t].expires < now {
        return Failure(ExpiredRefreshToken);
      }
      var saved := tokens;
      tokens := tokens[t := tokens[t].(revoked := true)];
      var user := tokens[t].user;
      if user >= |active| || !active[user] {
        tokens := saved;
        return Failure(UserInactive);
      }
      var issued := IssueTokens(user, now);
      audit := audit + [Refreshed(user)];
      r := Success(issued);
    }

    method LogOut(user: nat, presented: Option<nat>)
      modifies this
      ensures State() == Logout(old(State()), user, presented)
      ensures |tokens| == |old(tokens)| && audit == old(audit) + [LoggedOut(user)]
      ensures forall t :: 0 <= t < |tokens| ==>
                tokens[t] == if presented == Some(t) && old(tokens)[t].user == user
                             then old(tokens)[t].(revoked := true) else old(tokens)[t]
    {
      var found := FindToken(tokens, presented);
      if found.Some? && tokens[found.value].user == user {
        tokens := tokens[found.value := tokens[found.value].(revoked := true)];
      }
      audit := audit + [LoggedOut(user)];
    }
  }

  // --- Runs -------------------------------------------------------------------

  datatype Event =
    | LogsIn(account: Option<nat>, verified: bool, now: int)
    | Refreshes(presented: Option<nat>, decodes: bool, now: int)
    | LogsOut(user: nat, presented: Option<nat>)
    | SetsActive(users: seq<bool>)    // users are added, activated or deactivated

  function Perform(db: Db, ev: Event): Outcome {
    match ev
    case LogsIn(account, verified, now) => Login(db, account, verified, now)
    case Refreshes(presented, decodes, now) => Refresh(db, presented, decodes, now)
    case LogsOut(user, presented) => Success(Logout(db, user, presented))
    case SetsActive(users) => Success(db.(active := users))
  }

  function Step(db: Db, ev: Event): Db {
    match Perform(db, ev)
    case Success(d) => d
    case Failure(_) => db
  }

  function Run(db: Db, evs: seq<Event>): Db {
    if evs == [] then db else Step(Run(db, evs[..|evs| - 1]), evs[|evs| - 1])
  }

  // The login each token descends from: a login starts a family, a refresh continues the
  // family of the token it redeems.
  function NextFamilies(db: Db, ev: Event, fams: seq<nat>, logins: nat): seq<nat> {
    if Perform(db, ev).Failure? then fams
    else if ev.LogsIn? then fams + [logins]
    else if ev.Refreshes? && ev.presented.Some? && ev.presented.value < |fams| then fams + [fams[ev.presented.value]]
    else fams
  }

  function Families(db: Db, evs: seq<Event>): seq<nat> {
    if evs == [] then []
    else
      var before := evs[..|evs| - 1];
      NextFamilies(Run(db, before), evs[|evs| - 1], Families(db, before), Logins(db, before))
  }

  // How many logins have succeeded.
  function Logins(db: Db, evs: seq<Event>): nat {
    if evs == [] then 0
    else
      var before := evs[..|evs| - 1];
      var ev := evs[|evs| - 1];
      Logins(db, before) + if ev.LogsIn? && Perform(Run(db, before), ev).Success? then 1 else 0
  }

  // A token is followed by a later one of its family only once it is revoked; so a family
  // has at most one unrevoked token, the last.
  ghost predicate OnlyLastAlive(tokens: seq<Token>, fams: seq<nat>)
    requires |tokens| == |fams|
  {
    forall i, j :: 0 <= i < j < |tokens| && fams[i] == fams[j] ==>
      tokens[i].revoked && tokens[i].user == tokens[j].user
  }

  ghost predicate FamilyInv(tokens: seq<Token>, fams: seq<nat>, logins: nat) {
    && |fams| == |tokens|
    && (forall i :: 0 <= i < |fams| ==> fams[i] < logins)
    && OnlyLastAlive(tokens, fams)
  }

  lemma StepKeepsFamilies(db: Db, ev: Event, fams: seq<nat>, logins: nat)
    requires FamilyInv(db.tokens, fams, logins)
    ensures FamilyInv(Step(db, ev).tokens, NextFamilies(db, ev, fams, logins),
                      logins + if ev.LogsIn? && Perform(db, ev).Success? then 1 else 0)
  {
  }

  lemma {:induction false} FamiliesHaveOneLiveToken(db: Db, evs: seq<Event>)
    requires db.tokens == []
    ensures FamilyInv(Run(db, evs).tokens, Families(db, evs), Logins(db, evs))
  {
    if evs != [] {
      var before := evs[..|evs| - 1];
      FamiliesHaveOneLiveToken(db, before);
      StepKeepsFamilies(Run(db, before), evs[|evs| - 1], Families(db, before), Logins(db, before));
    }
  }

  // --- Redemption -------------------------------------------------------------

  // How often token t has been redeemed.
  function Redemptions(db: Db, evs: seq<Event>, t: nat): nat {
    if evs == [] then 0
    else
      var before := evs[..|evs| - 1];
      var ev := evs[|evs| - 1];
      Redemptions(db, before, t)
      + if ev.Refreshes? && ev.presented == Some(t) && Perform(Run(db, before), ev).Success? then 1 else 0
  }

  lemma {:induction false} TokensAreSingleUse(db: Db, evs: seq<Event>, t: nat)
    requires db.tokens == []
    ensures Redemptions(db, evs, t) <= 1
    ensures Redemptions(db, evs, t) == 1 ==> t < |Run(db, evs).tokens| && Run(db, evs).tokens[t].revoked
  {
    if evs != [] {
      TokensAreSingleUse(db, evs[..|evs| - 1], t);
    }
  }

  // Who is active after a run: as last set.
  function ActiveAfter(db: Db, evs: seq<Event>): seq<bool> {
    if evs == [] then db.active
    else if evs[|evs| - 1].SetsActive? then evs[|evs| - 1].users
    else ActiveAfter(db, evs[..|evs| - 1])
  }

  lemma {:induction false} ActiveAsSet(db: Db, evs: seq<Event>)
    ensures Run(db, evs).active == ActiveAfter(db, evs)
  {
    if evs != [] {
      ActiveAsSet(db, evs[..|evs| - 1]);
    }
  }

  // --- Where tokens come from -------------------------------------------------

  // When token t was issued.
  function IssuedAt(db: Db, evs: seq<Event>, t: nat): int {
    if evs == [] then 0
    else
      var before, ev := evs[..|evs| - 1], evs[|evs| - 1];
      if t < |Run(db, before).tokens| then IssuedAt(db, before, t)
      else if ev.LogsIn? || ev.Refreshes? then ev.now else 0
  }

  // Its user has logged token t out.
  function LoggedOutEver(db: Db, evs: seq<Event>, t: nat): bool {
    evs != [] &&
    var before, ev := evs[..|evs| - 1], evs[|evs| - 1];
    var tokens := Run(db, before).tokens;
    || LoggedOutEver(db, before, t)
    || (ev.LogsOut? && ev.presented == Some(t) && t < |tokens| && tokens[t].user == ev.user)
  }

  // What the run so far says about token t.
  ghost predicate TokenIs(db: Db, evs: seq<Event>, t: nat, token: Token) {
    && token.expires == IssuedAt(db, evs, t) + 604800
    && (token.revoked <==> Redemptions(db, evs, t) > 0 || LoggedOutEver(db, evs, t))
  }

  lemma TokenEvolves(db: Db, ev: Event, t: nat)
    requires t < |db.tokens|
    ensures var d := Step(db, ev);
            && t < |d.tokens| && d.tokens[t] == db.tokens[t].(revoked := d.tokens[t].revoked)
            && (d.tokens[t].revoked <==>
                  || db.tokens[t].revoked
                  || (ev.Refreshes? && ev.presented == Some(t) && Perform(db, ev).Success?)
                  || (ev.LogsOut? && ev.presented == Some(t) && db.tokens[t].user == ev.user))
  {
  }

  lemma TokenArrives(db: Db, ev: Event, t: nat)
    requires |db.tokens| <= t < |Step(db, ev).tokens|
    ensures ev.LogsIn? || ev.Refreshes?
    ensures !Step(db, ev).tokens[t].revoked && Step(db, ev).tokens[t].expires == ev.now + 604800
    ensures ev.Refreshes? ==> ev.presented.Some? && ev.presented.value < |db.tokens|
  {
  }

  lemma {:induction false} NothingBefore(db: Db, evs: seq<Event>, t: nat)
    requires db.tokens == [] && |Run(db, evs).tokens| <= t
    ensures Redemptions(db, evs, t) == 0 && !LoggedOutEver(db, evs, t)
  {
    if evs != [] {
      var before := evs[..|evs| - 1];
      if t < |Run(db, before).tokens| {
        TokenEvolves(Run(db, before), evs[|evs| - 1], t);
      } else {
        NothingBefore(db, before, t);
      }
    }
  }

  lemma {:induction false} TokenHistory(db: Db, evs: seq<Event>, t: nat)
    requires db.tokens == [] && t < |Run(db, evs).tokens|
    ensures TokenIs(db, evs, t, Run(db, evs).tokens[t])
  {
    var before, ev := evs[..|evs| - 1], evs[|evs| - 1];
    if t < |Run(db, before).tokens| {
      TokenHistory(db, before, t);
      TokenEvolves(Run(db, before), ev, t);
    } else {
      NothingBefore(db, before, t);
      TokenArrives(Run(db, before), ev, t);
    }
  }

  // A refresh succeeds exactly when its token was issued in this run at most seven days ago,
  // has neither been redeemed nor logged out by its user, and its user is active now; it then
  // issues one token to that user.
  lemma RefreshRule(db: Db, evs: seq<Event>, presented: Option<nat>, decodes: bool, now: int)
    requires db.tokens == []
    ensures var d := Run(db, evs);
            var o := Perform(d, Refreshes(presented, decodes, now));
            && (o.Success? <==>
                  && decodes && presented.Some? && presented.value < |d.tokens|
                  && now <= IssuedAt(db, evs, presented.value) + 604800
                  && Redemptions(db, evs, presented.value) == 0 && !LoggedOutEver(db, evs, presented.value)
                  && var user := d.tokens[presented.value].user;
                     user < |ActiveAfter(db, evs)| && ActiveAfter(db, evs)[user])
            && (o.Success? ==>
                  |o.value.tokens| == |d.tokens| + 1
                  && o.value.tokens[|d.tokens|] == Token(d.tokens[presented.value].user, now + 604800, false))
  {
    ActiveAsSet(db, evs);
    if presented.Some? && presented.value < |Run(db, evs).tokens| {
      TokenHistory(db, evs, presented.value);
    }
  }

  // The n-th event is the login, with a verified password, of the existing and active user.
  ghost predicate StartsSession(db: Db, evs: seq<Event>, n: nat, user: nat, login: nat)
    requires n < |evs|
  {
    && evs[n].LogsIn? && evs[n].account == Some(user) && evs[n].verified
    && user < |ActiveAfter(db, evs[..n])| && ActiveAfter(db, evs[..n])[user]
    && Logins(db, evs[..n]) == login
  }

  lemma StartsStill(db: Db, evs: seq<Event>, n: nat, user: nat, login: nat)
    requires n < |evs| - 1 && StartsSession(db, evs[..|evs| - 1], n, user, login)
    ensures StartsSession(db, evs, n, user, login)
  {
    assert evs[..|evs| - 1][..n] == evs[..n];
  }

  lemma NewTokenFamily(db: Db, ev: Event, fams: seq<nat>, logins: nat)
    requires |fams| == |db.tokens| && |db.tokens| < |Step(db, ev).tokens|
    ensures var t := Step(db, ev).tokens[|db.tokens|];
            var next := NextFamilies(db, ev, fams, logins);
            && |next| == |fams| + 1
            && if ev.LogsIn?
               then ev.account == Some(t.user) && ev.verified && t.user < |db.active| && db.active[t.user]
                    && next[|fams|] == logins
               else ev.Refreshes? && ev.presented.Some? && ev.presented.value < |fams|
                    && t.user == db.tokens[ev.presented.value].user && next[|fams|] == fams[ev.presented.value]
  {
  }

  lemma OldTokenFamily(db: Db, ev: Event, fams: seq<nat>, logins: nat, t: nat)
    requires |fams| == |db.tokens| && t < |fams|
    ensures var next := NextFamilies(db, ev, fams, logins);
            t < |next| && next[t] == fams[t]
  {
  }

  // Every token descends from a login of its own user, existing and active then, whose
  // password was verified.
  lemma {:induction false} TokensDescendFromLogins(db: Db, evs: seq<Event>, t: nat) returns (n: nat)
    requires db.tokens == [] && t < |Run(db, evs).tokens|
    ensures |Families(db, evs)| == |Run(db, evs).tokens|
    ensures n < |evs| && StartsSession(db, evs, n, Run(db, evs).tokens[t].user, Families(db, evs)[t])
  {
    var before, ev := evs[..|evs| - 1], evs[|evs| - 1];
    var b := Run(db, before);
    FamiliesHaveOneLiveToken(db, before);
    FamiliesHaveOneLiveToken(db, evs);
    if t < |b.tokens| {
      n := TokensDescendFromLogins(db, before, t);
      TokenEvolves(b, ev, t);
      OldTokenFamily(b, ev, Families(db, before), Logins(db, before), t);
      StartsStill(db, evs, n, b.tokens[t].user, Families(db, before)[t]);
    } else {
      NewTokenFamily(b, ev, Families(db, before), Logins(db, before));
      if ev.LogsIn? {
        ActiveAsSet(db, before);
        n := |evs| - 1;
      } else {
        n := TokensDescendFromLogins(db, before, ev.presented.value);
        StartsStill(db, evs, n, b.tokens[ev.presented.value].user, Families(db, before)[ev.presented.value]);
      }
    }
  }

  // --- Sessions ---------------------------------------------------------------

  function LiveTokens(tokens: seq<Token>, user: nat): int {
    if tokens == [] then 0
    else
      var t := tokens[|tokens| - 1];
      LiveTokens(tokens[..|tokens| - 1], user) + if t.user == user && !t.revoked then 1 else 0
  }

  lemma LiveTokensAppend(tokens: seq<Token>, t: Token, user: nat)
    ensures LiveTokens(tokens + [t], user) ==
            LiveTokens(tokens, user) + if t.user == user && !t.revoked then 1 else 0
  {
  }

  lemma {:induction false} LiveTokensRevoke(tokens: seq<Token>, t: nat, user: nat)
    requires t < |tokens| && !tokens[t].revoked
    ensures LiveTokens(Revoke(tokens, t), user) == LiveTokens(tokens, user) - if tokens[t].user == user then 1 else 0
  {
    var last := |tokens| - 1;
    if t < last {
      LiveTokensRevoke(tokens[..last], t, user);
      assert Revoke(tokens, t)[..last] == Revoke(tokens[..last], t);
    } else {
      assert Revoke(tokens, t)[..last] == tokens[..last];
    }
  }

  // Whether the event is a login of user that succeeds.
  predicate IsLogin(db: Db, ev: Event, user: nat) {
    ev.LogsIn? && ev.account == Some(user) && Perform(db, ev).Success?
  }

  // Whether the event is a logout of user that finds a token of the user to revoke.
  predicate IsEffectiveLogout(db: Db, ev: Event, user: nat) {
    && ev.LogsOut? && ev.user == user
    && var t := FindToken(db.tokens, ev.presented);
       t.Some? && db.tokens[t.value].user == user
  }

  function Sessions(db: Db, evs: seq<Event>, user: nat): int {
    if evs == [] then 0
    else
      var before := evs[..|evs| - 1];
      var d, ev := Run(db, before), evs[|evs| - 1];
      Sessions(db, before, user) + (if IsLogin(d, ev, user) then 1 else 0)
      - (if IsEffectiveLogout(d, ev, user) then 1 else 0)
  }

  lemma StepCountsSessions(db: Db, ev: Event, user: nat)
    ensures LiveTokens(Step(db, ev).tokens, user) ==
            LiveTokens(db.tokens, user) + (if IsLogin(db, ev, user) then 1 else 0)
            - (if IsEffectiveLogout(db, ev, user) then 1 else 0)
  {
    match ev
    case LogsIn(account, verified, now) =>
      if Perform(db, ev).Success? {
        LiveTokensAppend(db.tokens, Token(account.value, now + REFRESH_SECONDS, false), user);
      }
    case Refreshes(presented, decodes, now) =>
      if Perform(db, ev).Success? {
        var t := presented.value;
        LiveTokensRevoke(db.tokens, t, user);
        LiveTokensAppend(Revoke(db.tokens, t), Token(db.tokens[t].user, now + REFRESH_SECONDS, false), user);
      }
    case LogsOut(u, presented) =>
      var found := FindToken(db.tokens, presented);
      if found.Some? {
        LiveTokensRevoke(db.tokens, found.value, user);
      }
    case SetsActive(users) =>
  }

  // A user's unrevoked tokens number the successful logins less the effective logouts:
  // refreshing, whether it succeeds or fails, never changes the number.
  lemma {:induction false} LiveTokensAreSessions(db: Db, evs: seq<Event>, user: nat)
    requires db.tokens == []
    ensures LiveTokens(Run(db, evs).tokens, user) == Sessions(db, evs, user)
  {
    if evs != [] {
      LiveTokensAreSessions(db, evs[..|evs| - 1], user);
      StepCountsSessions(Run(db, evs[..|evs| - 1]), evs[|evs| - 1], user);
    }
  }
}
