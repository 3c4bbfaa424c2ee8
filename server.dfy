/**
 * The request handlers of backend/server.js over the tables of module Db:
 * bearer-token authentication, /api/register, /api/login, /api/vote,
 * /api/status and the response of /api/results.
 */
module Server {
  import opened Wrappers
  import opened Crypto
  import opened Db
  import opened Ranking
  import opened LexOrder

  const MissingToken := "Missing token"
  const InvalidToken := "Invalid or expired token"
  const RegisterFieldsRequired := "Name, email and password are required."
  const AccountExists := "Account already exists. Please login."
  const LoginFieldsRequired := "Email and password are required."
  const InvalidCredentials := "Invalid credentials"
  const CandidateRequired := "candidateId is required"
  const AlreadyVoted := "You have already voted."

  /** The JSON body of a response. */
  datatype Body =
    | Failure(error: string)                                 // { error }
    | Registered(userId: nat)                                // { success: true, userId }
    | LoggedIn(token: string, name: string, email: string)   // { token, name, email }
    | VoteStatus(hasVoted: bool, candidateId: Option<int>)   // { hasVoted, candidateId }
    | Voted(voteId: nat)                                     // { success: true, voteId }
    | Standings(rows: seq<Standing>)                         // the result rows

  /** An HTTP status code with its JSON body. */
  datatype Response = Response(status: nat, body: Body)

  function Fail(status: nat, message: string): Response
  {
    Response(status, Failure(message))
  }

  /** A string field of the request body that JavaScript treats as true: present and not empty. */
  predicate Given(field: Option<string>)
    ensures field == None ==> !Given(field)
    ensures field == Some("") ==> !Given(field)
    ensures field.Some? && |field.value| > 0 ==> Given(field)
  {
    field.Some? && field.value != ""
  }

  /** A candidateId that JavaScript treats as true: present and not 0. */
  predicate GivenId(field: Option<int>)
    ensures field == None ==> !GivenId(field)
    ensures field == Some(0) ==> !GivenId(field)
    ensures field.Some? && field.value != 0 ==> GivenId(field)
  {
    field.Some? && field.value != 0
  }

  /** The token of an Authorization header: what follows "Bearer ", when the header starts with it. */
  function BearerToken(authorization: string): (token: Option<string>)
    ensures token.Some? ==> authorization == "Bearer " + token.value
    ensures token.None? <==> !("Bearer " <= authorization)
  {
    if |authorization| >= 7 && authorization[..7] == "Bearer " then Some(authorization[7..]) else None
  }

  /**
   * authRequired: the user id the request acts for, or the 401 response that
   * ends it. A missing header counts as an empty one.
   */
  function Authenticate(authorization: Option<string>, jwt: Jwt): (r: Result<nat, Response>)
    ensures r == Err(Fail(401, MissingToken)) <==>
              authorization.None? || !("Bearer " < authorization.value)
    ensures r.Err? ==> r.error == Fail(401, MissingToken) || r.error == Fail(401, InvalidToken)
    ensures r.Ok? ==>
              authorization.Some? && "Bearer " < authorization.value &&
              jwt.verify(authorization.value[7..]) == Some(r.value)
  {
    var header := if authorization.Some? then authorization.value else "";
    var token := BearerToken(header);
    if token.None? || token.value == "" then Err(Fail(401, MissingToken))
    else match jwt.verify(token.value)
      case None => Err(Fail(401, InvalidToken))
      case Some(userId) => Ok(userId)
  }

  /** A header "Bearer " + token with a non-empty token reaches the signature check with exactly that token. */
  lemma BearerAuthenticates(token: string, jwt: Jwt)
    requires token != ""
    ensures Authenticate(Some("Bearer " + token), jwt) ==
              if jwt.verify(token).Some? then Ok(jwt.verify(token).value) else Err(Fail(401, InvalidToken))
  {
    var header := "Bearer " + token;
    assert header[..7] == "Bearer " && header[7..] == token;
  }

  /** POST /api/register. */
  method Register(db: Database, bcrypt: Bcrypt, salt: nat,
                  name: Option<string>, email: Option<string>, password: Option<string>)
    returns (res: Response)
    requires db.Valid()
    modifies db
    ensures db.Valid()
    ensures !(Given(name) && Given(email) && Given(password)) ==>
              res == Fail(400, RegisterFieldsRequired) && db.Snapshot() == old(db.Snapshot())
    ensures Given(name) && Given(email) && Given(password) &&
            old(FindUserByEmail(db.users, email.value)).Some? ==>
              res == Fail(409, AccountExists) && db.Snapshot() == old(db.Snapshot())
    ensures Given(name) && Given(email) && Given(password) &&
            old(FindUserByEmail(db.users, email.value)).None? ==>
              res == Response(200, Registered(old(db.userSeq) + 1)) &&
              db.Snapshot() ==
                AddUser(old(db.Snapshot()), name.value, email.value, bcrypt.hash(password.value, salt))
  {
    if !(Given(name) && Given(email) && Given(password)) {
      return Fail(400, RegisterFieldsRequired);
    }
    if FindUserByEmail(db.users, email.value).Some? {
      return Fail(409, AccountExists);
    }
    var passwordHash := bcrypt.hash(password.value, salt);
    var id := db.InsertUser(name.value, email.value, passwordHash);
    // UNIQUE(email) cannot refuse the row: the lookup above found none.
    assert id.Some?;
    res := Response(200, Registered(id.value));
  }

  /**
   * POST /api/login. An unknown email and a wrong password get the same
   * response; a token is issued only for the user whose digest matches.
   */
  function Login(users: seq<User>, bcrypt: Bcrypt, jwt: Jwt, email: Option<string>, password: Option<string>)
    : (r: Response)
    ensures !(Given(email) && Given(password)) ==> r == Fail(400, LoginFieldsRequired)
    ensures Given(email) && Given(password) && r.status != 200 ==> r == Fail(401, InvalidCredentials)
    ensures r.status == 200 ==>
              Given(email) && Given(password) &&
              exists u :: u in users && u.email == email.value && bcrypt.compare(password.value, u.passwordHash) &&
                          r.body == LoggedIn(jwt.sign(u.id), u.name, u.email)
  {
    if !(Given(email) && Given(password)) then Fail(400, LoginFieldsRequired)
    else match FindUserByEmail(users, email.value)
      case None => Fail(401, InvalidCredentials)
      case Some(user) =>
        if bcrypt.compare(password.value, user.passwordHash)
        then Response(200, LoggedIn(jwt.sign(user.id), user.name, user.email))
        else Fail(401, InvalidCredentials)
  }

  /** With unique emails, login succeeds exactly when some user has that email and a matching digest. */
  lemma LoginSucceedsIff(users: seq<User>, last: nat, bcrypt: Bcrypt, jwt: Jwt, email: string, password: string)
    requires UsersOk(users, last)
    requires email != "" && password != ""
    ensures Login(users, bcrypt, jwt, Some(email), Some(password)).status == 200 <==>
              exists u :: u in users && u.email == email && bcrypt.compare(password, u.passwordHash)
  {
    if exists u :: u in users && u.email == email && bcrypt.compare(password, u.passwordHash) {
      var u :| u in users && u.email == email && bcrypt.compare(password, u.passwordHash);
      FindUserUnique(users, last, u);
    }
  }

  /** After a successful registration, logging in with the same email and password issues a token for the new id. */
  lemma RegisterThenLogin(t: Tables, bcrypt: Bcrypt, jwt: Jwt, salt: nat, name: string, email: string, password: string)
    requires Consistent(t) && Sound(bcrypt)
    requires email != "" && password != ""
    requires FindUserByEmail(t.users, email).None?
    ensures Login(AddUser(t, name, email, bcrypt.hash(password, salt)).users, bcrypt, jwt, Some(email), Some(password)) ==
              Response(200, LoggedIn(jwt.sign(t.userSeq + 1), name, email))
  {
    var t' := AddUser(t, name, email, bcrypt.hash(password, salt));
    AddUserConsistent(t, name, email, bcrypt.hash(password, salt));
    var u := t'.users[|t.users|];
    assert u in t'.users;
    FindUserUnique(t'.users, t'.userSeq, u);
  }

  /** POST /api/vote, behind authRequired. No check is made that the candidate exists. */
  method CastVote(db: Database, jwt: Jwt, authorization: Option<string>, candidateId: Option<int>)
    returns (res: Response)
    requires db.Valid()
    modifies db
    ensures db.Valid()
    ensures Authenticate(authorization, jwt).Err? ==>
              res == Authenticate(authorization, jwt).error && db.Snapshot() == old(db.Snapshot())
    ensures Authenticate(authorization, jwt).Ok? && !GivenId(candidateId) ==>
              res == Fail(400, CandidateRequired) && db.Snapshot() == old(db.Snapshot())
    ensures Authenticate(authorization, jwt).Ok? && GivenId(candidateId) &&
            old(FindVoteByUser(db.votes, Authenticate(authorization, jwt).value)).Some? ==>
              res == Fail(409, AlreadyVoted) && db.Snapshot() == old(db.Snapshot())
    ensures Authenticate(authorization, jwt).Ok? && GivenId(candidateId) &&
            old(FindVoteByUser(db.votes, Authenticate(authorization, jwt).value)).None? ==>
              res == Response(200, Voted(old(db.voteSeq) + 1)) &&
              db.Snapshot() ==
                AddVote(old(db.Snapshot()), Authenticate(authorization, jwt).value, candidateId.value)
  {
    var auth := Authenticate(authorization, jwt);
    if auth.Err? {
      return auth.error;
    }
    var userId := auth.value;
    if !GivenId(candidateId) {
      return Fail(400, CandidateRequired);
    }
    if FindVoteByUser(db.votes, userId).Some? {
      return Fail(409, AlreadyVoted);
    }
    var id := db.InsertVote(userId, candidateId.value);
    // UNIQUE(user_id) cannot refuse the row: the lookup above found none.
    assert id.Some?;
    res := Response(200, Voted(id.value));
  }

  /** GET /api/status, behind authRequired: whether the user has a vote row, and for which candidate. */
  function Status(votes: seq<Vote>, jwt: Jwt, authorization: Option<string>): (r: Response)
    ensures Authenticate(authorization, jwt).Err? ==> r == Authenticate(authorization, jwt).error
    ensures Authenticate(authorization, jwt).Ok? ==>
              var userId := Authenticate(authorization, jwt).value;
              r.status == 200 && r.body.VoteStatus? &&
              (r.body.hasVoted <==> exists v :: v in votes && v.userId == userId) &&
              (r.body.candidateId.Some? <==> r.body.hasVoted) &&
              (r.body.hasVoted ==>
                 exists v :: v in votes && v.userId == userId && r.body.candidateId == Some(v.candidateId))
  {
    match Authenticate(authorization, jwt)
    case Err(response) => response
    case Ok(userId) =>
      var row := FindVoteByUser(votes, userId);
      Response(200, VoteStatus(row.Some?, if row.Some? then Some(row.value.candidateId) else None))
  }

  /** Once a vote row is added for the authenticated user, status reports that vote. */
  lemma StatusAfterVote(t: Tables, jwt: Jwt, authorization: Option<string>, candidateId: int)
    requires Consistent(t)
    requires Authenticate(authorization, jwt).Ok?
    requires FindVoteByUser(t.votes, Authenticate(authorization, jwt).value).None?
    ensures Status(AddVote(t, Authenticate(authorization, jwt).value, candidateId).votes, jwt, authorization) ==
              Response(200, VoteStatus(true, Some(candidateId)))
  {
    var userId := Authenticate(authorization, jwt).value;
    var t' := AddVote(t, userId, candidateId);
    AddVoteConsistent(t, userId, candidateId);
    var v := t'.votes[|t.votes|];
    assert v in t'.votes;
    FindVoteUnique(t'.votes, t'.voteSeq, v);
  }

  /** GET /api/results. */
  function ResultsResponse(t: Tables): (r: Response)
    ensures r.status == 200 && r.body.Standings?
    ensures Ranked(r.body.rows) && multiset(r.body.rows) == multiset(Tally(t.candidates, t.votes))
  {
    Response(200, Standings(Results(t.candidates, t.votes)))
  }

  /** The first two requests of the walk below: register Alice on the new database, then log her in. */
  method SignUp(db: Database, bcrypt: Bcrypt, jwt: Jwt, salt: nat) returns (registered: Response, login: Response)
    requires Sound(bcrypt)
    requires db.Valid() && db.Snapshot() == Tables([], FirstCandidates, [], 0, 3, 0)
    modifies db
    ensures db.Valid()
    ensures db.Snapshot() == AddUser(Tables([], FirstCandidates, [], 0, 3, 0), "Alice", "a@x.com", bcrypt.hash("pw1", salt))
    ensures registered == Response(200, Registered(1))
    ensures login == Response(200, LoggedIn(jwt.sign(1), "Alice", "a@x.com"))
  {
    var name, email, password := "Alice", "a@x.com", "pw1";
    registered := Register(db, bcrypt, salt, Some(name), Some(email), Some(password));
    RegisterThenLogin(old(db.Snapshot()), bcrypt, jwt, salt, name, email, password);
    login := Login(db.users, bcrypt, jwt, Some(email), Some(password));
  }

  /**
   * The walk through the API on a new database: register, log in, vote for
   * candidate 1 with the token, try to vote again for candidate 2, read the results.
   */
  method Walkthrough(bcrypt: Bcrypt, jwt: Jwt, salt: nat)
    returns (registered: Response, login: Response, first: Response, second: Response, standings: seq<Standing>)
    requires Sound(bcrypt)
    requires RoundTrips(jwt)
    ensures registered == Response(200, Registered(1))
    ensures login == Response(200, LoggedIn(jwt.sign(1), "Alice", "a@x.com"))
    ensures first == Response(200, Voted(1))
    ensures second == Fail(409, AlreadyVoted)
    ensures standings == [Standing(1, "Alice Johnson", "Party A", 1),
                          Standing(2, "Bob Smith", "Party B", 0),
                          Standing(3, "Charlie Brown", "Party C", 0)]
  {
    var db := OpenNew();
    registered, login := SignUp(db, bcrypt, jwt, salt);
    first, second := VoteTwice(db, jwt, Some("Bearer " + login.body.token));
    SampleResults();
    standings := Results(db.candidates, db.votes);
  }

  /** The third and fourth requests of the walk: a vote for candidate 1, then one for candidate 2, by user 1. */
  method VoteTwice(db: Database, jwt: Jwt, authorization: Option<string>) returns (first: Response, second: Response)
    requires db.Valid() && db.votes == [] && db.voteSeq == 0
    requires Authenticate(authorization, jwt) == Ok(1)
    modifies db
    ensures db.candidates == old(db.candidates) && db.votes == [Vote(1, 1, 1)]
    ensures first == Response(200, Voted(1))
    ensures second == Fail(409, AlreadyVoted)
  {
    first := CastVote(db, jwt, authorization, Some(1));
    assert db.votes[0] in db.votes;
    second := CastVote(db, jwt, authorization, Some(2));
  }

  lemma SampleResults()
    ensures Results(FirstCandidates, [Vote(1, 1, 1)]) ==
              [Standing(1, "Alice Johnson", "Party A", 1), Standing(2, "Bob Smith", "Party B", 0),
               Standing(3, "Charlie Brown", "Party C", 0)]
  {
    var votes := [Vote(1, 1, 1)];
    var a := Standing(1, "Alice Johnson", "Party A", 1);
    var b := Standing(2, "Bob Smith", "Party B", 0);
    var c := Standing(3, "Charlie Brown", "Party C", 0);
    assert Count(votes, 1) == 1 && Count(votes, 2) == 0 && Count(votes, 3) == 0;
    assert Tally(FirstCandidates, votes) == [a, b, c];
    assert LexLe(b.name, c.name);
    assert Sort([c]) == [c];
    assert Sort([b, c]) == Place(b, [c]) == [b, c];
    assert Sort([a, b, c]) == Place(a, [b, c]) == [a, b, c];
  }
}
