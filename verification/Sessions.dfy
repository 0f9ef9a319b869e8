/** Sessions: one-time codes, issued tokens and the version number that invalidates them.
    An account is identified by its position; its email never changes. Tokens are taken as
    unforgeable and unexpired. */
module Sessions {
  import opened Wrappers

  datatype Account = Account(email: string, superAdmin: bool, active: bool, emailVerified: bool,
                             version: nat, code: Option<string>)

  datatype Kind = Auth | PreAuth

  datatype Token = Token(user: nat, email: string, kind: Kind, version: nat)

  datatype Reason = UnverifiedEmail | ActiveOnAnotherDevice

  /** `issued` remembers every token ever signed; no command reads it. */
  datatype State = State(accounts: seq<Account>, issued: seq<Token>)

  datatype Command =
    | Register(email: string, code: string)
    | AddMember(email: string)
    | Login(email: string, passwordValid: bool, mobile: bool, code: string)
    | VerifyLogin(email: string, code: string)
    | VerifyPreAuth(token: Token, reason: Option<Reason>, email: string, code: string)
    | VerifyEmail(email: string, code: string)
    | Logout(token: Token)

  function FindByEmail(accounts: seq<Account>, email: string): Option<nat> {
    if accounts == [] then None
    else if accounts[0].email == email then Some(0)
    else
      var r := FindByEmail(accounts[1..], email);
      if r.None? then None else Some(r.value + 1)
  }

  /** JwtStrategy.validate. */
  predicate Validate(accounts: seq<Account>, t: Token) {
    var u := FindByEmail(accounts, t.email);
    u.Some? && u.value < |accounts| && t.version == accounts[u.value].version
  }

  function TokenFor(accounts: seq<Account>, u: nat, kind: Kind): Token
    requires u < |accounts|
  {
    Token(u, accounts[u].email, kind, accounts[u].version)
  }

  function Change(s: State, u: nat, a: Account): State
    requires u < |s.accounts|
  {
    s.(accounts := s.accounts[u := a])
  }

  /** Sign a token for the account as it now is. */
  function Issue(s: State, u: nat, kind: Kind): State
    requires u < |s.accounts|
  {
    s.(issued := s.issued + [TokenFor(s.accounts, u, kind)])
  }

  /** The account that a command is about, if it gets past its look-ups. */
  function Subject(s: State, c: Command): Option<nat> {
    match c
    case Register(email, _) => None
    case AddMember(email) => None
    case Login(email, valid, mobile, _) =>
      var u := FindByEmail(s.accounts, email);
      if u.Some? && u.value < |s.accounts| && valid && (mobile || s.accounts[u.value].superAdmin) then u else None
    case VerifyLogin(email, code) =>
      var u := FindByEmail(s.accounts, email);
      if u.Some? && u.value < |s.accounts| && s.accounts[u.value].code == Some(code) then u else None
    case VerifyPreAuth(t, reason, email, code) =>
      var u := FindByEmail(s.accounts, email);
      if Validate(s.accounts, t) && u.Some? && u.value < |s.accounts| && u.value == t.user
         && s.accounts[u.value].code == Some(code) then u else None
    case VerifyEmail(email, code) =>
      var u := FindByEmail(s.accounts, email);
      if u.Some? && u.value < |s.accounts| && !s.accounts[u.value].emailVerified
         && s.accounts[u.value].code == Some(code) then u else None
    case Logout(t) =>
      if Validate(s.accounts, t) && t.user < |s.accounts| then Some(t.user) else None
  }

  /** An unverified super admin only gets a pre-authentication token; its old code stays. */
  predicate StaysUnverified(a: Account) {
    a.superAdmin && !a.emailVerified
  }

  function Enter(a: Account): Account {
    a.(active := true, code := None)
  }

  function AfterPreAuth(a: Account, reason: Option<Reason>): Account {
    if reason == Some(UnverifiedEmail) then Enter(a.(emailVerified := true))
    else if reason == Some(ActiveOnAnotherDevice) then Enter(a.(version := a.version + 1))
    else Enter(a)
  }

  function Step(s: State, c: Command): State {
    match c
    case Register(email, code) =>
      if FindByEmail(s.accounts, email).Some? then s
      else Issue(s.(accounts := s.accounts + [Account(email, true, false, false, 0, Some(code))]), |s.accounts|, Auth)
    case AddMember(email) =>
      if FindByEmail(s.accounts, email).Some? then s
      else s.(accounts := s.accounts + [Account(email, false, false, false, 0, None)])
    case _ =>
      var u := Subject(s, c);
      if u.None? || u.value >= |s.accounts| then s else Act(s, c, u.value)
  }

  function Act(s: State, c: Command, u: nat): State
    requires u < |s.accounts|
  {
    var a := s.accounts[u];
    match c
    case Login(_, _, _, code) =>
      if StaysUnverified(a) then Issue(s, u, PreAuth)
      else if a.active then Issue(Change(s, u, a.(code := Some(code))), u, PreAuth)
      else Change(s, u, a.(code := Some(code)))
    case VerifyLogin(_, _) => Issue(Change(s, u, Enter(a)), u, Auth)
    case VerifyPreAuth(_, reason, _, _) => Issue(Change(s, u, AfterPreAuth(a, reason)), u, Auth)
    case VerifyEmail(_, _) => Change(s, u, a.(emailVerified := true, code := None))
    case Logout(_) => Change(s, u, a.(active := false, version := a.version + 1))
    case _ => s
  }

  const EMPTY := State([], [])

  function Run(s: State, cs: seq<Command>): State {
    if cs == [] then s else Step(Run(s, cs[..|cs| - 1]), cs[|cs| - 1])
  }

  // ------------------------------------------------------------- events of a run

  /** The command raises account u's version. */
  predicate Bumps(s: State, c: Command, u: nat) {
    Subject(s, c) == Some(u) && (c.Logout? || (c.VerifyPreAuth? && c.reason == Some(ActiveOnAnotherDevice)))
  }

  /** The command accepts and consumes account u's code. */
  predicate Accepts(s: State, c: Command, u: nat) {
    Subject(s, c) == Some(u) && (c.VerifyLogin? || c.VerifyPreAuth? || c.VerifyEmail?)
  }

  /** The command gives account u a new code. */
  predicate GivesCode(s: State, c: Command, u: nat) {
    || (c.Register? && u == |s.accounts| && FindByEmail(s.accounts, c.email).None?)
    || (c.Login? && Subject(s, c) == Some(u) && u < |s.accounts| && !StaysUnverified(s.accounts[u]))
  }

  function CountBumps(s: State, cs: seq<Command>, u: nat): nat {
    if cs == [] then 0
    else CountBumps(s, cs[..|cs| - 1], u)
         + (if Bumps(Run(s, cs[..|cs| - 1]), cs[|cs| - 1], u) then 1 else 0)
  }

  function CountAccepted(s: State, cs: seq<Command>, u: nat): nat {
    if cs == [] then 0
    else CountAccepted(s, cs[..|cs| - 1], u)
         + (if Accepts(Run(s, cs[..|cs| - 1]), cs[|cs| - 1], u) then 1 else 0)
  }

  function CountCodes(s: State, cs: seq<Command>, u: nat): nat {
    if cs == [] then 0
    else CountCodes(s, cs[..|cs| - 1], u)
         + (if GivesCode(Run(s, cs[..|cs| - 1]), cs[|cs| - 1], u) then 1 else 0)
  }
}
