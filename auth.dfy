/** Bearer-token authentication, registration and login. Hashing, salting and token
    signing are abstract functions passed in by the caller. */
module Auth {
  import opened Wrappers
  import opened Text
  import opened Js
  import opened Model
  import opened Store
  import opened Seqs
  import opened Http

  /** `authHeader && authHeader.split(" ")[1]`, kept only when truthy. */
  function BearerToken(header: Option<string>): (r: Option<string>)
    ensures r.Some? ==> StringTruthy(header) && r.value != "" && ' ' !in r.value
  {
    if !StringTruthy(header) then None
    else
      var parts := Split(header.value, ' ');
      if |parts| >= 2 && parts[1] != "" then Some(parts[1]) else None
  }

  /** The token is exactly the word after the scheme, whatever follows it. */
  lemma BearerTokenOfScheme(scheme: string, token: string, rest: string)
    requires ' ' !in scheme && ' ' !in token && token != ""
    ensures BearerToken(Some(scheme + " " + token)) == Some(token)
    ensures BearerToken(Some(scheme + " " + token + " " + rest)) == Some(token)
  {
    SplitAfterHead(scheme, ' ', token);
    assert scheme + " " + token == scheme + [' '] + token;
    SplitNoSeparator(token, ' ');
    SplitAfterHead(scheme, ' ', token + [' '] + rest);
    assert scheme + " " + token + " " + rest == scheme + [' '] + (token + [' '] + rest);
    SplitAfterHead(token, ' ', rest);
  }

  /** A header that is a single word, or whose second word is empty (the scheme is
      followed by a space that ends the header or by a second space), carries no token. */
  lemma NoTokenWithoutSecondWord(header: string)
    requires ' ' !in header || exists a, b :: header == a + " " + b && ' ' !in a && (b == "" || b[0] == ' ')
    ensures BearerToken(Some(header)) == None
  {
    if ' ' !in header {
      SplitNoSeparator(header, ' ');
    } else {
      var a, b :| header == a + " " + b && ' ' !in a && (b == "" || b[0] == ' ');
      assert header == a + [' '] + b;
      SplitAfterHead(a, ' ', b);
      if b == "" {
        SplitNoSeparator("", ' ');
      } else {
        assert b == [] + [' '] + b[1..];
        SplitAfterHead([], ' ', b[1..]);
      }
    }
  }

  /** The header "Bearer " that a client with an empty stored token sends carries no token. */
  lemma EmptyBearerHasNoToken()
    ensures BearerToken(Some("Bearer ")) == None
  {
    var a: string := "Bearer";
    assert forall i :: 0 <= i < |a| ==> a[i] != ' ';
    assert "Bearer " == a + [' '] + [];
    SplitAfterHead(a, ' ', []);
    SplitNoSeparator([], ' ');
  }

  /** `authenticateUser`: `verify` stands for `jwt.verify` with the server secret. */
  function Authenticate(header: Option<string>, verify: string -> bool): (o: Outcome)
    ensures o.Next? <==> BearerToken(header).Some? && verify(BearerToken(header).value)
    ensures o.Halt? ==> o.response == Response(401, Empty)
  {
    match BearerToken(header)
    case None => Halt(Response(401, Empty))
    case Some(t) => if verify(t) then Next else Halt(Response(401, Empty))
  }

  function HasEmail(email: string): Account -> bool
  {
    (a: Account) => a.email == email
  }

  predicate EmailTaken(accounts: seq<Account>, email: string)
  {
    exists a :: a in accounts && a.email == email
  }

  predicate IdTaken(accounts: seq<Account>, id: Id)
  {
    exists a :: a in accounts && a.id == id
  }

  /** `registerUser` with the early exit on missing input. `newId` is the generated `_id`,
      `hash` is `bcrypt.hash` under a fresh salt and `sign` issues the access token. */
  method RegisterUser(db: Database, email: Option<string>, password: Option<string>, newId: Id,
                      hash: string -> string, sign: string -> string) returns (resp: Response)
    requires db.Valid()
    requires !IdTaken(db.accounts, newId)
    modifies db
    ensures db.Valid()
    ensures db.reviews == old(db.reviews) && db.restaurants == old(db.restaurants)
    ensures !StringTruthy(email) || !StringTruthy(password) ==>
              resp == Response(400, Text("Bad request: Invalid input data.")) && db.accounts == old(db.accounts)
    ensures StringTruthy(email) && StringTruthy(password) && EmailTaken(old(db.accounts), email.value) ==>
              resp == Response(409, Text("Email already in use")) && db.accounts == old(db.accounts)
    ensures resp.status == 201 <==>
              StringTruthy(email) && StringTruthy(password) && !EmailTaken(old(db.accounts), email.value)
    ensures resp.status == 201 ==>
              && resp.body == Token(sign(email.value))
              && db.accounts == old(db.accounts) + [Account(newId, email.value, hash(password.value), [])]
  {
    if !StringTruthy(email) || !StringTruthy(password) {
      return Response(400, Text("Bad request: Invalid input data."));
    }
    var existing := FindFirst(HasEmail(email.value), db.accounts);
    if existing.Some? {
      return Response(409, Text("Email already in use"));
    }
    var account := Account(newId, email.value, hash(password.value), []);
    ghost var before := db.accounts;
    db.accounts := db.accounts + [account];
    AppendAccountValid(before, account);
    resp := Response(201, Token(sign(email.value)));
  }

  /** Appending an account with a new id and a new e-mail keeps both unique. */
  lemma AppendAccountValid(accounts: seq<Account>, a: Account)
    requires UniqueAccountIds(accounts) && UniqueEmails(accounts)
    requires !IdTaken(accounts, a.id) && !EmailTaken(accounts, a.email)
    ensures UniqueAccountIds(accounts + [a]) && UniqueEmails(accounts + [a])
  {
    var r := accounts + [a];
    forall i, j | 0 <= i < j < |r| ensures r[i].id != r[j].id && r[i].email != r[j].email {
      if j == |accounts| { assert r[i] in accounts; }
    }
  }

  /** `loginUser`: look the e-mail up and compare the stored hash. */
  function Login(accounts: seq<Account>, email: string, password: string,
                 hash: string -> string, sign: string -> string): (resp: Response)
    ensures resp.status == 200 ==>
              exists a :: a in accounts && a.email == email && a.password == hash(password)
    ensures resp.status != 200 ==> resp == Response(401, Text("Unauthorized"))
    ensures resp.status == 200 ==> resp.body == Token(sign(email))
  {
    match FindFirst(HasEmail(email), accounts)
    case None => Response(401, Text("Unauthorized"))
    case Some(i) =>
      if hash(password) == accounts[i].password then Response(200, Token(sign(email)))
      else Response(401, Text("Unauthorized"))
  }

  /** With unique e-mails, login succeeds exactly when an account has that e-mail and
      the hash of the password is the one stored. */
  lemma LoginSucceedsIff(accounts: seq<Account>, email: string, password: string,
                         hash: string -> string, sign: string -> string)
    requires UniqueEmails(accounts)
    ensures Login(accounts, email, password, hash, sign).status == 200 <==>
              exists a :: a in accounts && a.email == email && a.password == hash(password)
  {
    if exists a :: a in accounts && a.email == email && a.password == hash(password) {
      var a :| a in accounts && a.email == email && a.password == hash(password);
      var k :| 0 <= k < |accounts| && accounts[k] == a;
      var i := FindFirst(HasEmail(email), accounts).value;
      assert accounts[i].email == email;
      assert i == k;
    }
  }

  /** After a successful registration, logging in with the same password succeeds; with an
      injective hash, logging in with any other password fails. */
  lemma RegisterThenLogin(accounts: seq<Account>, newId: Id, email: string, password: string, other: string,
                          hash: string -> string, sign: string -> string)
    requires UniqueEmails(accounts) && !EmailTaken(accounts, email)
    requires forall x, y :: hash(x) == hash(y) ==> x == y
    requires other != password
    ensures var after := accounts + [Account(newId, email, hash(password), [])];
            && Login(after, email, password, hash, sign) == Response(200, Token(sign(email)))
            && Login(after, email, other, hash, sign) == Response(401, Text("Unauthorized"))
  {
    var after := accounts + [Account(newId, email, hash(password), [])];
    var i := FindFirst(HasEmail(email), after);
    assert HasEmail(email)(after[|accounts|]);
    assert i.value == |accounts| by {
      assert after[i.value].email == email;
      assert after[i.value] !in accounts;
    }
  }

  /** What `registerUser` as written does: the statuses it tries to send, in order, and
      whether it inserts an account. The 400 branch at lines 45-47 does not return, so the
      lookup at line 49 still runs; `found` is whether it found an account. `password` is
      the body's field, `None` when absent: `bcrypt.hash` rejects `undefined` (a 500 from
      the catch at line 64) but hashes the empty string. Only the first status reaches
      the client; Express refuses every later send, since the headers are already out. */
  function RegisterAsWritten(emailTruthy: bool, password: Option<string>, found: bool): (r: (seq<int>, bool))
    ensures 1 <= |r.0| <= 2
    ensures r.0[0] == 400 <==> !emailTruthy || !StringTruthy(password)
    ensures |r.0| == 2 <==> r.0[0] == 400
    ensures r.1 <==> !found && password.Some?
    ensures r.1 ==> r.0[|r.0| - 1] == 201
    ensures found ==> r.0[|r.0| - 1] == 409
    ensures !found && password.None? ==> r.0[|r.0| - 1] == 500
  {
    var first := if !emailTruthy || !StringTruthy(password) then [400] else [];
    if found then (first + [409], false)
    else if password.None? then (first + [500], false)
    else (first + [201], true)
  }

  /** Missing input never stops the handler: a second send is always attempted after the
      400, a missing password with a taken e-mail is also answered 409, and an empty
      password or a missing e-mail still inserts an account after the 400. */
  lemma RegisterAsWrittenRespondsTwice()
    ensures RegisterAsWritten(true, None, true).0 == [400, 409]
    ensures RegisterAsWritten(true, None, false).0 == [400, 500]
    ensures RegisterAsWritten(true, Some(""), false) == ([400, 201], true)
    ensures RegisterAsWritten(false, Some("x"), false) == ([400, 201], true)
    ensures forall e: bool, p: Option<string>, f: bool {:trigger RegisterAsWritten(e, p, f)} ::
              !e || !StringTruthy(p) ==> RegisterAsWritten(e, p, f).0[0] == 400 && |RegisterAsWritten(e, p, f).0| == 2
  {
    assert [400] + [201] == [400, 201];
    assert [400] + [409] == [400, 409];
    assert [400] + [500] == [400, 500];
  }
}
