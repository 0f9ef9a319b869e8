/** What a history of logins, verifications and logouts means for tokens and codes. */
module SessionHistory {
  import opened Wrappers
  import opened Sessions

  ghost predicate DistinctEmails(accounts: seq<Account>) {
    forall i, j :: 0 <= i < j < |accounts| ==> accounts[i].email != accounts[j].email
  }

  /** Tokens name an account by number and by email, and never a version from its future. */
  ghost predicate TokenOk(accounts: seq<Account>, t: Token) {
    t.user < |accounts| && t.email == accounts[t.user].email && t.version <= accounts[t.user].version
  }

  ghost predicate Ok(s: State) {
    DistinctEmails(s.accounts) && forall i :: 0 <= i < |s.issued| ==> TokenOk(s.accounts, s.issued[i])
  }

  lemma {:induction false} FindBound(accounts: seq<Account>, email: string)
    ensures var r := FindByEmail(accounts, email);
            && (r.Some? ==> r.value < |accounts| && accounts[r.value].email == email)
            && (r.None? ==> forall i :: 0 <= i < |accounts| ==> accounts[i].email != email)
  {
    if accounts != [] { FindBound(accounts[1..], email); }
  }

  lemma FindsOwner(accounts: seq<Account>, u: nat)
    requires DistinctEmails(accounts) && u < |accounts|
    ensures FindByEmail(accounts, accounts[u].email) == Some(u)
  {
    FindBound(accounts, accounts[u].email);
  }

  // ------------------------------------------------------------- the commands in full

  /** Account u is the first with this email. */
  ghost predicate Owns(accounts: seq<Account>, email: string, u: nat) {
    u < |accounts| && accounts[u].email == email && forall j :: 0 <= j < u ==> accounts[j].email != email
  }

  lemma {:induction false} FindExactly(accounts: seq<Account>, email: string)
    ensures forall u: nat :: Owns(accounts, email, u) <==> FindByEmail(accounts, email) == Some(u)
    ensures FindByEmail(accounts, email).Some? <==> exists i :: 0 <= i < |accounts| && accounts[i].email == email
  {
    FindFirst(accounts, email);
    FindBound(accounts, email);
  }

  lemma {:induction false} FindFirst(accounts: seq<Account>, email: string)
    ensures var r := FindByEmail(accounts, email); r.Some? ==> Owns(accounts, email, r.value)
  {
    if accounts != [] && accounts[0].email != email {
      FindFirst(accounts[1..], email);
      var r := FindByEmail(accounts[1..], email);
      if r.Some? {
        forall j | 0 <= j < r.value + 1 ensures accounts[j].email != email {
          if j > 0 { assert accounts[j] == accounts[1..][j - 1]; }
        }
      }
    }
  }

  lemma OwnsExactly(accounts: seq<Account>, email: string, u: nat)
    ensures Owns(accounts, email, u) <==> FindByEmail(accounts, email) == Some(u)
  {
    FindExactly(accounts, email);
  }

  /** The token is of the version that the account with its email now has. */
  ghost predicate Current(accounts: seq<Account>, t: Token) {
    exists v: nat :: Owns(accounts, t.email, v) && t.version == accounts[v].version
  }

  lemma ValidateExactly(accounts: seq<Account>, t: Token)
    ensures Validate(accounts, t) <==> Current(accounts, t)
  {
    FindExactly(accounts, t.email);
    FindBound(accounts, t.email);
    var u := FindByEmail(accounts, t.email);
    if u.Some? { assert Owns(accounts, t.email, u.value); }
  }

  /** What each command demands of the account it is about. */
  ghost predicate Entitled(s: State, c: Command, u: nat) {
    match c
    case Login(email, valid, mobile, _) =>
      Owns(s.accounts, email, u) && valid && (mobile || s.accounts[u].superAdmin)
    case VerifyLogin(email, code) =>
      Owns(s.accounts, email, u) && s.accounts[u].code == Some(code)
    case VerifyPreAuth(t, _, email, code) =>
      Current(s.accounts, t) && t.user == u && Owns(s.accounts, email, u) && s.accounts[u].code == Some(code)
    case VerifyEmail(email, code) =>
      Owns(s.accounts, email, u) && !s.accounts[u].emailVerified && s.accounts[u].code == Some(code)
    case Logout(t) => Current(s.accounts, t) && t.user == u < |s.accounts|
    case _ => false
  }

  lemma SubjectExactly(s: State, c: Command, u: nat)
    ensures Subject(s, c) == Some(u) <==> Entitled(s, c, u)
  {
    match c
    case Register(_, _) =>
    case AddMember(_) =>
    case Logout(t) => ValidateExactly(s.accounts, t);
    case VerifyPreAuth(t, _, email, _) => ValidateExactly(s.accounts, t); FindExactly(s.accounts, email);
    case _ => FindExactly(s.accounts, c.email);
  }

  /** A code is accepted only if it is the very code that the account with this email holds. */
  lemma AcceptedCodeIsHeld(s: State, c: Command, u: nat)
    requires Accepts(s, c, u)
    ensures u < |s.accounts| && s.accounts[u].email == c.email && s.accounts[u].code == Some(c.code)
  {
    SubjectExactly(s, c, u);
  }

  /** What each command makes of its account. */
  function Changed(a: Account, c: Command): Account {
    match c
    case Login(_, _, _, code) => if a.superAdmin && !a.emailVerified then a else a.(code := Some(code))
    case VerifyLogin(_, _) => a.(active := true, code := None)
    case VerifyPreAuth(_, reason, _, _) =>
      a.(active := true, code := None, emailVerified := a.emailVerified || reason == Some(UnverifiedEmail),
         version := if reason == Some(ActiveOnAnotherDevice) then a.version + 1 else a.version)
    case VerifyEmail(_, _) => a.(emailVerified := true, code := None)
    case Logout(_) => a.(active := false, version := a.version + 1)
    case _ => a
  }

  /** Which kind of token it issues to it, if any. */
  function Signed(a: Account, c: Command): Option<Kind> {
    match c
    case Login(_, _, _, _) => if (a.superAdmin && !a.emailVerified) || a.active then Some(PreAuth) else None
    case VerifyLogin(_, _) => Some(Auth)
    case VerifyPreAuth(_, _, _, _) => Some(Auth)
    case _ => None
  }

  /** A command changes the account that is entitled to it, in this way, and no other; and it issues
      a token of the account's new version. */
  lemma StepExactly(s: State, c: Command, v: nat)
    requires !c.Register? && !c.AddMember? && v < |s.accounts|
    ensures |Step(s, c).accounts| == |s.accounts|
    ensures Step(s, c).accounts[v] == if Entitled(s, c, v) then Changed(s.accounts[v], c) else s.accounts[v]
    ensures Entitled(s, c, v) ==>
              var a := Changed(s.accounts[v], c);
              Step(s, c).issued
                == if Signed(s.accounts[v], c).None? then s.issued
                   else s.issued + [Token(v, a.email, Signed(s.accounts[v], c).value, a.version)]
    ensures Subject(s, c).None? ==> Step(s, c) == s
  {
    SubjectExactly(s, c, v);
  }

  /** The two commands that make accounts: a registration with a code and a token, a member with none;
      both refused when the email is taken. */
  lemma NewAccountExactly(s: State, c: Command)
    requires c.Register? || c.AddMember?
    ensures (exists i :: 0 <= i < |s.accounts| && s.accounts[i].email == c.email) ==> Step(s, c) == s
    ensures (forall i :: 0 <= i < |s.accounts| ==> s.accounts[i].email != c.email) ==>
              Step(s, c) == if c.Register?
                            then State(s.accounts + [Account(c.email, true, false, false, 0, Some(c.code))],
                                       s.issued + [Token(|s.accounts|, c.email, Auth, 0)])
                            else State(s.accounts + [Account(c.email, false, false, false, 0, None)], s.issued)
  {
    FindExactly(s.accounts, c.email);
  }

  /** What one command can do to an existing account. */
  lemma StepAccount(s: State, c: Command, u: nat)
    requires u < |s.accounts|
    ensures |s.accounts| <= |Step(s, c).accounts| && s.issued <= Step(s, c).issued
    ensures var a, a' := s.accounts[u], Step(s, c).accounts[u];
            && a'.email == a.email
            && a'.version == a.version + (if Bumps(s, c, u) then 1 else 0)
            && (Accepts(s, c, u) ==> a.code.Some? && a'.code == None)
            && (!Accepts(s, c, u) && !GivesCode(s, c, u) ==> a'.code == a.code)
  {
  }

  lemma StepOk(s: State, c: Command)
    requires Ok(s)
    ensures Ok(Step(s, c))
  {
    var s' := Step(s, c);
    if c.Register? || c.AddMember? { FindBound(s.accounts, c.email); }
    forall u: nat | u < |s.accounts|
      ensures |s.accounts| <= |s'.accounts| && s'.accounts[u].email == s.accounts[u].email
      ensures s.accounts[u].version <= s'.accounts[u].version
    {
      StepAccount(s, c, u);
    }
    forall i | 0 <= i < |s'.issued| ensures TokenOk(s'.accounts, s'.issued[i]) {
      if i < |s.issued| { assert TokenOk(s.accounts, s.issued[i]); }
    }
  }

  lemma {:induction false} RunOk(s: State, cs: seq<Command>)
    requires Ok(s)
    ensures Ok(Run(s, cs)) && |s.accounts| <= |Run(s, cs).accounts| && s.issued <= Run(s, cs).issued
  {
    if cs != [] {
      var front := cs[..|cs| - 1];
      RunOk(s, front);
      StepOk(Run(s, front), cs[|cs| - 1]);
      if |Run(s, front).accounts| > 0 { StepAccount(Run(s, front), cs[|cs| - 1], 0); }
    }
  }

  /** The version counts the bumps, so it never decreases. */
  lemma {:induction false} VersionCountsBumps(s: State, cs: seq<Command>, u: nat)
    requires Ok(s) && u < |s.accounts|
    ensures |s.accounts| <= |Run(s, cs).accounts|
    ensures Run(s, cs).accounts[u].version == s.accounts[u].version + CountBumps(s, cs, u)
    ensures Run(s, cs).accounts[u].email == s.accounts[u].email
  {
    RunOk(s, cs);
    if cs != [] {
      var front := cs[..|cs| - 1];
      RunOk(s, front);
      VersionCountsBumps(s, front, u);
      StepAccount(Run(s, front), cs[|cs| - 1], u);
    }
  }

  /** A token of the current version keeps validating exactly as long as nothing bumps the version:
      at any later moment it is accepted if and only if no bump of its account came in between. */
  lemma ValidIffNoBump(past: seq<Command>, more: seq<Command>, t: Token)
    requires t in Run(EMPTY, past).issued
    requires t.user < |Run(EMPTY, past).accounts| && t.version == Run(EMPTY, past).accounts[t.user].version
    ensures Validate(Run(Run(EMPTY, past), more).accounts, t) <==> CountBumps(Run(EMPTY, past), more, t.user) == 0
  {
    var s := Run(EMPTY, past);
    RunOk(EMPTY, past);
    var i :| 0 <= i < |s.issued| && s.issued[i] == t;
    assert TokenOk(s.accounts, s.issued[i]);
    RunOk(s, more);
    VersionCountsBumps(s, more, t.user);
    FindsOwner(Run(s, more).accounts, t.user);
  }

  /** The premise above holds of every token at the moment it is issued. */
  lemma FreshTokensAreCurrent(past: seq<Command>, c: Command)
    ensures var s, s' := Run(EMPTY, past), Step(Run(EMPTY, past), c);
            forall i :: |s.issued| <= i < |s'.issued| ==>
              && s'.issued[i].user < |s'.accounts|
              && s'.issued[i].version == s'.accounts[s'.issued[i].user].version
              && Validate(s'.accounts, s'.issued[i])
  {
    var s, s' := Run(EMPTY, past), Step(Run(EMPTY, past), c);
    RunOk(EMPTY, past);
    StepOk(s, c);
    forall i | |s.issued| <= i < |s'.issued|
      ensures s'.issued[i].user < |s'.accounts|
      ensures s'.issued[i].version == s'.accounts[s'.issued[i].user].version
      ensures Validate(s'.accounts, s'.issued[i])
    {
      assert TokenOk(s'.accounts, s'.issued[i]);
      FindsOwner(s'.accounts, s'.issued[i].user);
    }
  }

  /** A token stays refused once refused: an outdated one is never accepted again. */
  lemma OutdatedForever(past: seq<Command>, more: seq<Command>, t: Token)
    requires t in Run(EMPTY, past).issued
    requires !Validate(Run(EMPTY, past).accounts, t)
    ensures !Validate(Run(Run(EMPTY, past), more).accounts, t)
  {
    var s := Run(EMPTY, past);
    RunOk(EMPTY, past);
    var i :| 0 <= i < |s.issued| && s.issued[i] == t;
    assert TokenOk(s.accounts, s.issued[i]);
    FindsOwner(s.accounts, t.user);
    RunOk(s, more);
    VersionCountsBumps(s, more, t.user);
    FindsOwner(Run(s, more).accounts, t.user);
  }

  /** After a logout no token of that account issued before it is ever accepted again. */
  lemma LogoutEndsAllSessions(past: seq<Command>, own: Token, more: seq<Command>, t: Token)
    requires t in Run(EMPTY, past).issued && t.user == own.user
    requires Subject(Run(EMPTY, past), Logout(own)) == Some(own.user)
    ensures !Validate(Run(Step(Run(EMPTY, past), Logout(own)), more).accounts, t)
  {
    var s := Run(EMPTY, past);
    RunOk(EMPTY, past);
    var i :| 0 <= i < |s.issued| && s.issued[i] == t;
    assert TokenOk(s.accounts, s.issued[i]);
    var s1 := Step(s, Logout(own));
    StepOk(s, Logout(own));
    StepAccount(s, Logout(own), t.user);
    RunOk(s1, more);
    VersionCountsBumps(s1, more, t.user);
    FindsOwner(Run(s1, more).accounts, t.user);
  }

  // ------------------------------------------------------------- codes

  function Held(s: State, u: nat): nat {
    if u < |s.accounts| && s.accounts[u].code.Some? then 1 else 0
  }

  lemma StepCodes(s: State, c: Command, u: nat)
    ensures Held(Step(s, c), u) + (if Accepts(s, c, u) then 1 else 0)
         <= Held(s, u) + (if GivesCode(s, c, u) then 1 else 0)
  {
    if u < |s.accounts| { StepAccount(s, c, u); }
    if Subject(s, c).Some? && c.VerifyLogin? { FindBound(s.accounts, c.email); }
  }

  /** Every accepted code was issued for it: from any state on, an account's acceptances never
      outnumber the codes it is given plus the one it may already hold. */
  lemma {:induction false} EachCodeOnce(s: State, cs: seq<Command>, u: nat)
    ensures CountAccepted(s, cs, u) + Held(Run(s, cs), u) <= CountCodes(s, cs, u) + Held(s, u)
  {
    if cs != [] {
      EachCodeOnce(s, cs[..|cs| - 1], u);
      StepCodes(Run(s, cs[..|cs| - 1]), cs[|cs| - 1], u);
    }
  }

  /** So once a code is accepted, nothing is accepted for that account until a new code is issued. */
  lemma AcceptedCodeIsConsumed(s: State, c: Command, more: seq<Command>, u: nat)
    requires u < |s.accounts| && Accepts(s, c, u)
    requires CountCodes(Step(s, c), more, u) == 0
    ensures CountAccepted(Step(s, c), more, u) == 0
  {
    StepAccount(s, c, u);
    EachCodeOnce(Step(s, c), more, u);
  }

  /** The code that account u was last given in a run and that has not been accepted since. */
  function LastCode(cs: seq<Command>, u: nat): Option<string> {
    if cs == [] then None
    else
      var s, c := Run(EMPTY, cs[..|cs| - 1]), cs[|cs| - 1];
      if GivesCode(s, c, u) && (c.Register? || c.Login?) then Some(c.code)
      else if Accepts(s, c, u) then None
      else LastCode(cs[..|cs| - 1], u)
  }

  lemma {:induction false} HoldsLastCode(cs: seq<Command>, u: nat)
    ensures LastCode(cs, u) == if u < |Run(EMPTY, cs).accounts| then Run(EMPTY, cs).accounts[u].code else None
  {
    if cs != [] {
      var s, c := Run(EMPTY, cs[..|cs| - 1]), cs[|cs| - 1];
      HoldsLastCode(cs[..|cs| - 1], u);
      StepCode(s, c, u);
    }
  }

  lemma StepCode(s: State, c: Command, u: nat)
    ensures var held := if u < |s.accounts| then s.accounts[u].code else None;
            var held' := if u < |Step(s, c).accounts| then Step(s, c).accounts[u].code else None;
            held' == if GivesCode(s, c, u) && (c.Register? || c.Login?) then Some(c.code)
                     else if Accepts(s, c, u) then None else held
  {
    if u < |s.accounts| { StepAccount(s, c, u); }
    if c.Register? || c.AddMember? { NewAccountExactly(s, c); FindExactly(s.accounts, c.email); }
    else if u < |s.accounts| { StepExactly(s, c, u); SubjectExactly(s, c, u); }
    else if |s.accounts| > 0 { StepExactly(s, c, 0); SubjectExactly(s, c, u); }
    else { SubjectExactly(s, c, u); }
  }

  /** In every run from the beginning, an accepted code is the last one given to its account, and has
      not been accepted before. */
  lemma AcceptedCodeIsLastGiven(cs: seq<Command>, c: Command, u: nat)
    requires Accepts(Run(EMPTY, cs), c, u)
    ensures LastCode(cs, u) == Some(c.code)
  {
    AcceptedCodeIsHeld(Run(EMPTY, cs), c, u);
    HoldsLastCode(cs, u);
  }

  // ------------------------------------------------------------- full sessions

  function AuthTokens(ts: seq<Token>, u: nat): nat {
    if ts == [] then 0
    else AuthTokens(ts[..|ts| - 1], u) + (if ts[|ts| - 1].kind == Auth && ts[|ts| - 1].user == u then 1 else 0)
  }

  lemma AuthTokensSnoc(ts: seq<Token>, t: Token, u: nat)
    ensures AuthTokens(ts + [t], u) == AuthTokens(ts, u) + (if t.kind == Auth && t.user == u then 1 else 0)
  {
    assert (ts + [t])[..|ts|] == ts;
  }

  /** The command opens a full session of account u: it registers u, or its login code is accepted. */
  predicate Opens(s: State, c: Command, u: nat) {
    || (c.Register? && u == |s.accounts| && FindByEmail(s.accounts, c.email).None?)
    || ((c.VerifyLogin? || c.VerifyPreAuth?) && Subject(s, c) == Some(u))
  }

  lemma StepAuth(s: State, c: Command, u: nat)
    ensures AuthTokens(Step(s, c).issued, u) == AuthTokens(s.issued, u) + (if Opens(s, c, u) then 1 else 0)
  {
    if |Step(s, c).issued| > |s.issued| {
      AuthTokensSnoc(s.issued, Step(s, c).issued[|s.issued|], u);
    }
  }

  function CountOpened(s: State, cs: seq<Command>, u: nat): nat {
    if cs == [] then 0
    else CountOpened(s, cs[..|cs| - 1], u)
         + (if Opens(Run(s, cs[..|cs| - 1]), cs[|cs| - 1], u) then 1 else 0)
  }

  /** Full tokens come from registrations and accepted login codes, one each, and from nothing else. */
  lemma {:induction false} AuthTokensAreOpened(s: State, cs: seq<Command>, u: nat)
    ensures AuthTokens(Run(s, cs).issued, u) == AuthTokens(s.issued, u) + CountOpened(s, cs, u)
  {
    if cs != [] {
      AuthTokensAreOpened(s, cs[..|cs| - 1], u);
      StepAuth(Run(s, cs[..|cs| - 1]), cs[|cs| - 1], u);
    }
  }

  /** One for an account that registered itself, whose registration issues a token without a code. */
  function Registered(s: State, u: nat): nat {
    if u < |s.accounts| && s.accounts[u].superAdmin then 1 else 0
  }

  lemma StepSessions(s: State, c: Command, u: nat)
    ensures Registered(Step(s, c), u)
         == Registered(s, u) + (if c.Register? && Opens(s, c, u) then 1 else 0)
    ensures Opens(s, c, u) && !c.Register? ==> Accepts(s, c, u)
  {
  }

  /** Over any run, an account gets no more full tokens than the codes it is given, besides the one
      that a registration hands out. */
  lemma {:induction false} SessionsNeedCodes(cs: seq<Command>, u: nat)
    ensures AuthTokens(Run(EMPTY, cs).issued, u) + Held(Run(EMPTY, cs), u)
         <= CountCodes(EMPTY, cs, u) + Registered(Run(EMPTY, cs), u)
  {
    if cs != [] {
      var s, c := Run(EMPTY, cs[..|cs| - 1]), cs[|cs| - 1];
      SessionsNeedCodes(cs[..|cs| - 1], u);
      StepAuth(s, c, u);
      StepCodes(s, c, u);
      StepSessions(s, c, u);
    }
  }

  // ------------------------------------------------------------- the handlers as code

  class AuthHandlers {
    var accounts: seq<Account>
    ghost var issued: seq<Token>

    ghost function View(): State
      reads this
    {
      State(accounts, issued)
    }

    constructor ()
      ensures View() == EMPTY
    {
      accounts, issued := [], [];
    }

    method Login(email: string, passwordValid: bool, mobile: bool, code: string) returns (r: Option<Token>)
      modifies this
      ensures View() == Step(old(View()), Command.Login(email, passwordValid, mobile, code))
      ensures forall u: nat :: Owns(old(accounts), email, u) ==>
                var a := old(accounts)[u];
                if !passwordValid || (!mobile && !a.superAdmin) then accounts == old(accounts) && r.None?
                else if a.superAdmin && !a.emailVerified then
                  accounts == old(accounts) && r == Some(Token(u, email, PreAuth, a.version))
                else
                  accounts == old(accounts)[u := a.(code := Some(code))]
                  && r == if a.active then Some(Token(u, email, PreAuth, a.version)) else None
      ensures (forall a :: a in old(accounts) ==> a.email != email) ==> accounts == old(accounts) && r.None?
      ensures r.Some? ==> r.value in issued && Validate(accounts, r.value)
    {
      FindExactly(accounts, email);
      FindBound(accounts, email);
      var u := FindByEmail(accounts, email);
      if u.None? || !passwordValid { return None; }
      var user := accounts[u.value];
      if !mobile && !user.superAdmin { return None; }
      if !user.emailVerified && user.superAdmin {
        r := Some(TokenFor(accounts, u.value, PreAuth));
        issued := issued + [r.value];
        return;
      }
      SameEmails(accounts, u.value, user.(code := Some(code)), email);
      accounts := accounts[u.value := user.(code := Some(code))];
      if user.active {
        r := Some(TokenFor(accounts, u.value, PreAuth));
        issued := issued + [r.value];
        return;
      }
      r := None;
    }

    method VerifyLogin(email: string, code: string) returns (r: Option<Token>)
      modifies this
      ensures View() == Step(old(View()), Command.VerifyLogin(email, code))
      ensures r.Some? <==> exists u: nat :: Owns(old(accounts), email, u) && old(accounts)[u].code == Some(code)
      ensures forall u: nat :: Owns(old(accounts), email, u) && old(accounts)[u].code == Some(code) ==>
                && accounts == old(accounts)[u := old(accounts)[u].(active := true, code := None)]
                && r == Some(Token(u, email, Auth, old(accounts)[u].version))
      ensures r.None? ==> accounts == old(accounts)
      ensures r.Some? ==> r.value in issued && Validate(accounts, r.value)
    {
      FindExactly(accounts, email);
      FindBound(accounts, email);
      var u := FindByEmail(accounts, email);
      if u.None? || accounts[u.value].code != Some(code) { return None; }
      var user := accounts[u.value].(active := true, code := None);
      SameEmails(accounts, u.value, user, email);
      accounts := accounts[u.value := user];
      r := Some(TokenFor(accounts, u.value, Auth));
      issued := issued + [r.value];
    }

    method VerifyPreAuth(token: Token, reason: Option<Reason>, email: string, code: string) returns (r: Option<Token>)
      modifies this
      ensures View() == Step(old(View()), Command.VerifyPreAuth(token, reason, email, code))
      ensures r.Some? <==> Current(old(accounts), token) && Owns(old(accounts), email, token.user)
                           && old(accounts)[token.user].code == Some(code)
      ensures r.Some? ==>
                var a := old(accounts)[token.user].(active := true, code := None);
                var b := if reason == Some(UnverifiedEmail) then a.(emailVerified := true)
                         else if reason == Some(ActiveOnAnotherDevice) then a.(version := a.version + 1) else a;
                accounts == old(accounts)[token.user := b] && r == Some(Token(token.user, email, Auth, b.version))
      ensures r.None? ==> accounts == old(accounts)
      ensures r.Some? ==> r.value in issued && Validate(accounts, r.value)
    {
      ValidateExactly(accounts, token);
      if !Validate(accounts, token) { return None; }
      OwnsExactly(accounts, email, token.user);
      FindBound(accounts, email);
      var u := FindByEmail(accounts, email);
      if u.None? || u.value != token.user || accounts[u.value].code != Some(code) { return None; }
      var user := accounts[u.value];
      if reason == Some(UnverifiedEmail) {
        user := user.(emailVerified := true);
      } else if reason == Some(ActiveOnAnotherDevice) {
        user := user.(version := user.version + 1);
      }
      user := user.(active := true, code := None);
      SameEmails(accounts, u.value, user, email);
      accounts := accounts[u.value := user];
      r := Some(TokenFor(accounts, u.value, Auth));
      issued := issued + [r.value];
    }

    method Logout(token: Token) returns (ok: bool)
      modifies this
      ensures View() == Step(old(View()), Command.Logout(token))
      ensures ok <==> Current(old(accounts), token) && token.user < |old(accounts)|
      ensures ok ==> var a := old(accounts)[token.user];
                     accounts == old(accounts)[token.user := a.(active := false, version := a.version + 1)]
      ensures !ok ==> accounts == old(accounts)
    {
      ValidateExactly(accounts, token);
      if !Validate(accounts, token) || token.user >= |accounts| { return false; }
      var user := accounts[token.user];
      accounts := accounts[token.user := user.(active := false, version := user.version + 1)];
      ok := true;
    }
  }

  lemma {:induction false} SameEmails(accounts: seq<Account>, u: nat, a: Account, email: string)
    requires u < |accounts| && a.email == accounts[u].email
    ensures FindByEmail(accounts[u := a], email) == FindByEmail(accounts, email)
  {
    if u > 0 {
      SameEmails(accounts[1..], u - 1, a, email);
      assert accounts[u := a][1..] == accounts[1..][u - 1 := a];
    } else {
      assert accounts[u := a][1..] == accounts[1..];
    }
  }
}
