/**
 The user directory ("Bank"): an insertion-ordered list of users, each owning
 one account. Creation appends without any uniqueness check; login is a
 first-match linear scan on exact username and password equality. The user
 pointer that login hands back is modelled as an index into the list.
 */
module Directory {
  import opened Wrappers
  import opened Ledger

  datatype User = User(username: string, password: string, account: Account)

  datatype Bank = Bank(users: seq<User>)

  /** What a session hands back: whether login succeeded, and the directory afterwards. */
  datatype SessionResult = SessionResult(loggedIn: bool, bank: Bank)

  predicate Matches(u: User, username: string, password: string) {
    u.username == username && u.password == password
  }

  /** `i` is the earliest position whose credentials match exactly. */
  predicate FirstMatch(users: seq<User>, username: string, password: string, i: nat) {
    && i < |users|
    && Matches(users[i], username, password)
    && forall j :: 0 <= j < i ==> !Matches(users[j], username, password)
  }

  /** Appends one user with a fresh zero-balance account; earlier users are kept as they are. */
  function CreateUser(b: Bank, username: string, password: string,
                      number: string, holder: string, loanLimit: int): (r: Bank)
    ensures |r.users| == |b.users| + 1
    ensures r.users[..|b.users|] == b.users
    ensures r.users[|b.users|].username == username
    ensures r.users[|b.users|].password == password
    ensures r.users[|b.users|].account.number == number
    ensures r.users[|b.users|].account.holder == holder
    ensures r.users[|b.users|].account.loanLimit == loanLimit
    ensures r.users[|b.users|].account.balance == 0
    ensures r.users[|b.users|].account.history == []
  {
    Bank(b.users + [User(username, password, NewAccount(number, holder, loanLimit))])
  }

  /** The login loop from position `k` on: the first match at or after `k`, if any. */
  function Scan(users: seq<User>, username: string, password: string, k: nat): (r: Option<nat>)
    requires k <= |users|
    ensures r.Some? ==> k <= r.value < |users| && Matches(users[r.value], username, password)
    ensures r.Some? ==> forall j :: k <= j < r.value ==> !Matches(users[j], username, password)
    ensures r.None? ==> forall j :: k <= j < |users| ==> !Matches(users[j], username, password)
    decreases |users| - k
  {
    if k == |users| then None
    else if Matches(users[k], username, password) then Some(k)
    else Scan(users, username, password, k + 1)
  }

  /** Login succeeds exactly when some user matches, and then yields the earliest one. */
  function Login(b: Bank, username: string, password: string): (r: Option<nat>)
    ensures r.Some? <==> exists j :: 0 <= j < |b.users| && Matches(b.users[j], username, password)
    ensures r.Some? ==> FirstMatch(b.users, username, password, r.value)
    ensures forall i: nat :: FirstMatch(b.users, username, password, i) ==> r == Some(i)
  {
    Scan(b.users, username, password, 0)
  }

  /**
   Creating a user never changes an existing successful login (a duplicate is
   shadowed by the earlier entry); otherwise the new user is found exactly
   when its credentials are the ones presented.
   */
  lemma LoginAfterCreateUser(b: Bank, username: string, password: string,
                             number: string, holder: string, loanLimit: int,
                             u: string, p: string)
    ensures Login(CreateUser(b, username, password, number, holder, loanLimit), u, p)
         == if Login(b, u, p).Some? then Login(b, u, p)
            else if username == u && password == p then Some(|b.users|)
            else None
  {
  }

  /** Applies one request to the account of user `i`; every user's credentials and every other account are untouched. */
  function Perform(b: Bank, i: nat, op: Op): (r: Bank)
    requires i < |b.users|
    ensures |r.users| == |b.users|
    ensures r.users[i] == b.users[i].(account := Apply(b.users[i].account, op).account)
    ensures forall j :: 0 <= j < |b.users| ==>
              r.users[j].username == b.users[j].username && r.users[j].password == b.users[j].password
    ensures forall j :: 0 <= j < |b.users| && j != i ==> r.users[j] == b.users[j]
  {
    Bank(b.users[i := b.users[i].(account := Apply(b.users[i].account, op).account)])
  }

  /** Account activity never changes who a login resolves to. */
  lemma LoginUnaffectedByPerform(b: Bank, i: nat, op: Op, u: string, p: string)
    requires i < |b.users|
    ensures Login(Perform(b, i, op), u, p) == Login(b, u, p)
  {
  }

  /** Applies a whole sequence of requests to the account of user `i`. */
  function PerformAll(b: Bank, i: nat, ops: seq<Op>): (r: Bank)
    requires i < |b.users|
    ensures |r.users| == |b.users|
    ensures r.users[i] == b.users[i].(account := Run(b.users[i].account, ops))
    ensures forall j :: 0 <= j < |b.users| ==>
              r.users[j].username == b.users[j].username && r.users[j].password == b.users[j].password
    ensures forall j :: 0 <= j < |b.users| && j != i ==> r.users[j] == b.users[j]
    decreases |ops|
  {
    if ops == [] then b else PerformAll(Perform(b, i, ops[0]), i, ops[1..])
  }

  /**
   One session: log in, then, if that succeeded, apply the requests in order
   to the account of the user found. A failed login changes nothing; a
   successful one only ever touches the logged-in user's account.
   */
  function Session(b: Bank, username: string, password: string, ops: seq<Op>): (r: SessionResult)
    ensures r.loggedIn <==> Login(b, username, password).Some?
    ensures !r.loggedIn ==> r.bank == b
    ensures r.loggedIn ==>
              var i := Login(b, username, password).value;
              && |r.bank.users| == |b.users|
              && r.bank.users[i] == b.users[i].(account := Run(b.users[i].account, ops))
              && forall j :: 0 <= j < |b.users| && j != i ==> r.bank.users[j] == b.users[j]
  {
    match Login(b, username, password)
    case None => SessionResult(false, b)
    case Some(i) => SessionResult(true, PerformAll(b, i, ops))
  }

  /** The directory the demo starts with: one user, `user1`, with a loan limit of 1000.00. */
  function Seeded(): Bank {
    CreateUser(Bank([]), "user1", "password1", "1234", "Brian", 100000)
  }

  /** Login against the seeded directory: right credentials succeed; a wrong password and an unknown user fail alike. */
  lemma SeededLogin()
    ensures Login(Seeded(), "user1", "password1") == Some(0)
    ensures Login(Seeded(), "user1", "wrong") == None
    ensures Login(Seeded(), "nouser", "x") == None
  {
    var s := Seeded();
    assert s.users[0].username == "user1" && s.users[0].password == "password1";
    assert FirstMatch(s.users, "user1", "password1", 0);
    assert !Matches(s.users[0], "user1", "wrong");
    assert !Matches(s.users[0], "nouser", "x");
  }
}
