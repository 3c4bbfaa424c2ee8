/**
 * The SQLite store of backend/db.js: the tables users, candidates and votes,
 * their constraints, AUTOINCREMENT ids, and the one-time seeding of the
 * default candidates. Each table is a sequence of rows in id order.
 */
module Db {
  import opened Wrappers

  /** A row of `users`. The credential column holds the bcrypt digest written at registration. */
  datatype User = User(id: nat, name: string, email: string, passwordHash: string)

  /** A row of `candidates`. */
  datatype Candidate = Candidate(id: nat, name: string, party: string)

  /** A row of `votes`. The candidate id is whatever the client sent; no foreign key is enforced. */
  datatype Vote = Vote(id: nat, userId: nat, candidateId: int)

  /**
   * The three tables and, for each, the counter SQLite keeps for an
   * AUTOINCREMENT key in sqlite_sequence: the largest id ever issued there.
   */
  datatype Tables = Tables(
    users: seq<User>, candidates: seq<Candidate>, votes: seq<Vote>,
    userSeq: nat, candidateSeq: nat, voteSeq: nat)

  /** The tables as CREATE TABLE leaves them: no rows, no id issued. */
  const NoRows := Tables([], [], [], 0, 0, 0)

  /** Ids are positive, ascending, and at most the counter; emails are pairwise distinct (UNIQUE). */
  predicate UsersOk(users: seq<User>, last: nat)
  {
    (forall i :: 0 <= i < |users| ==> 0 < users[i].id <= last) &&
    (forall i, j :: 0 <= i < j < |users| ==> users[i].id < users[j].id) &&
    (forall i, j :: 0 <= i < j < |users| ==> users[i].email != users[j].email)
  }

  /** Ids are positive, ascending, and at most the counter. */
  predicate CandidatesOk(candidates: seq<Candidate>, last: nat)
  {
    (forall i :: 0 <= i < |candidates| ==> 0 < candidates[i].id <= last) &&
    (forall i, j :: 0 <= i < j < |candidates| ==> candidates[i].id < candidates[j].id)
  }

  /** Ids are positive, ascending, and at most the counter; at most one row per user (UNIQUE(user_id)). */
  predicate VotesOk(votes: seq<Vote>, last: nat)
  {
    (forall i :: 0 <= i < |votes| ==> 0 < votes[i].id <= last) &&
    (forall i, j :: 0 <= i < j < |votes| ==> votes[i].id < votes[j].id) &&
    (forall i, j :: 0 <= i < j < |votes| ==> votes[i].userId != votes[j].userId)
  }

  /** Every constraint of the schema holds. */
  predicate Consistent(t: Tables)
  {
    UsersOk(t.users, t.userSeq) && CandidatesOk(t.candidates, t.candidateSeq) && VotesOk(t.votes, t.voteSeq)
  }

  /** SELECT ... FROM users WHERE email = ? (exact, case-sensitive match). */
  function FindUserByEmail(users: seq<User>, email: string): (r: Option<User>)
    ensures r.Some? ==> r.value in users && r.value.email == email
    ensures r.None? <==> forall u :: u in users ==> u.email != email
  {
    if users == [] then None
    else if users[0].email == email then Some(users[0])
    else FindUserByEmail(users[1..], email)
  }

  /** SELECT ... FROM votes WHERE user_id = ? */
  function FindVoteByUser(votes: seq<Vote>, userId: nat): (r: Option<Vote>)
    ensures r.Some? ==> r.value in votes && r.value.userId == userId
    ensures r.None? <==> forall v :: v in votes ==> v.userId != userId
  {
    if votes == [] then None
    else if votes[0].userId == userId then Some(votes[0])
    else FindVoteByUser(votes[1..], userId)
  }

  /**
   * INSERT INTO users once the constraints admit the row. AUTOINCREMENT hands
   * out the counter plus one, which is above every id the table holds; the
   * rows already there and the other tables are untouched.
   */
  function AddUser(t: Tables, name: string, email: string, passwordHash: string): (r: Tables)
    ensures r.userSeq == t.userSeq + 1
    ensures r.users == t.users + [User(r.userSeq, name, email, passwordHash)]
    ensures r.candidates == t.candidates && r.candidateSeq == t.candidateSeq
    ensures r.votes == t.votes && r.voteSeq == t.voteSeq
    ensures UsersOk(t.users, t.userSeq) ==> forall u :: u in t.users ==> u.id < r.userSeq
  {
    t.(users := t.users + [User(t.userSeq + 1, name, email, passwordHash)], userSeq := t.userSeq + 1)
  }

  /** INSERT INTO candidates (name, party): no constraint can refuse it, so the rows stay well-formed. */
  function AddCandidate(t: Tables, name: string, party: string): (r: Tables)
    ensures r.candidateSeq == t.candidateSeq + 1
    ensures r.candidates == t.candidates + [Candidate(r.candidateSeq, name, party)]
    ensures r.users == t.users && r.userSeq == t.userSeq
    ensures r.votes == t.votes && r.voteSeq == t.voteSeq
    ensures CandidatesOk(t.candidates, t.candidateSeq) ==> CandidatesOk(r.candidates, r.candidateSeq)
  {
    t.(candidates := t.candidates + [Candidate(t.candidateSeq + 1, name, party)],
       candidateSeq := t.candidateSeq + 1)
  }

  /** INSERT INTO votes (user_id, candidate_id) once the constraints admit the row. */
  function AddVote(t: Tables, userId: nat, candidateId: int): (r: Tables)
    ensures r.voteSeq == t.voteSeq + 1
    ensures r.votes == t.votes + [Vote(r.voteSeq, userId, candidateId)]
    ensures r.users == t.users && r.userSeq == t.userSeq
    ensures r.candidates == t.candidates && r.candidateSeq == t.candidateSeq
    ensures VotesOk(t.votes, t.voteSeq) ==> forall v :: v in t.votes ==> v.id < r.voteSeq
  {
    t.(votes := t.votes + [Vote(t.voteSeq + 1, userId, candidateId)], voteSeq := t.voteSeq + 1)
  }

  /**
   * CREATE TABLE IF NOT EXISTS for the three tables against the database
   * file: the tables it already holds (Some) are kept as they are, and a file
   * without them (None) gets empty ones. Either way the constraints hold
   * afterwards, given that a stored file satisfies them.
   */
  function CreateTables(file: Option<Tables>): (r: Tables)
    ensures file.Some? ==> r == file.value
    ensures file.None? ==> r.users == [] && r.candidates == [] && r.votes == []
    ensures (file.Some? ==> Consistent(file.value)) ==> Consistent(r)
  {
    if file.Some? then file.value else NoRows
  }

  /**
   * The sample candidates: inserted, in this order, only when `candidates`
   * has no rows. Seeding only ever appends candidates, and it always leaves
   * the candidates table non-empty, which is why a second run does nothing.
   */
  function Seed(t: Tables): (r: Tables)
    ensures t.candidates <= r.candidates && |r.candidates| > 0
    ensures r.users == t.users && r.votes == t.votes
  {
    if |t.candidates| == 0 then
      AddCandidate(AddCandidate(AddCandidate(t, "Alice Johnson", "Party A"), "Bob Smith", "Party B"),
                   "Charlie Brown", "Party C")
    else t
  }

  /** With unique emails, the lookup finds the one user holding that email. */
  lemma FindUserUnique(users: seq<User>, last: nat, u: User)
    requires UsersOk(users, last) && u in users
    ensures FindUserByEmail(users, u.email) == Some(u)
  {
    var w := FindUserByEmail(users, u.email).value;
    var i :| 0 <= i < |users| && users[i] == u;
    var j :| 0 <= j < |users| && users[j] == w;
    assert i == j;
  }

  /** With at most one vote row per user, the lookup finds the one row of that user. */
  lemma FindVoteUnique(votes: seq<Vote>, last: nat, v: Vote)
    requires VotesOk(votes, last) && v in votes
    ensures FindVoteByUser(votes, v.userId) == Some(v)
  {
    var w := FindVoteByUser(votes, v.userId).value;
    var i :| 0 <= i < |votes| && votes[i] == v;
    var j :| 0 <= j < |votes| && votes[j] == w;
    assert i == j;
  }

  /** The constraint on users holds after an insert exactly when no row had that email. */
  lemma AddUserConsistent(t: Tables, name: string, email: string, passwordHash: string)
    requires Consistent(t)
    ensures Consistent(AddUser(t, name, email, passwordHash)) <==> FindUserByEmail(t.users, email).None?
  {
    var s := AddUser(t, name, email, passwordHash).users;
    if FindUserByEmail(t.users, email).Some? {
      var i :| 0 <= i < |t.users| && t.users[i] == FindUserByEmail(t.users, email).value;
      assert s[i].email == s[|t.users|].email;
    } else {
      forall i | 0 <= i < |t.users| ensures s[i].email != email {
        assert t.users[i] in t.users;
      }
    }
  }

  /** The constraint on votes holds after an insert exactly when the user had no vote row. */
  lemma AddVoteConsistent(t: Tables, userId: nat, candidateId: int)
    requires Consistent(t)
    ensures Consistent(AddVote(t, userId, candidateId)) <==> FindVoteByUser(t.votes, userId).None?
  {
    var s := AddVote(t, userId, candidateId).votes;
    if FindVoteByUser(t.votes, userId).Some? {
      var i :| 0 <= i < |t.votes| && t.votes[i] == FindVoteByUser(t.votes, userId).value;
      assert s[i].userId == s[|t.votes|].userId;
    } else {
      forall i | 0 <= i < |t.votes| ensures s[i].userId != userId {
        assert t.votes[i] in t.votes;
      }
    }
  }

  /** Seeding inserts the three defaults in order with the next three ids, and touches nothing else. */
  lemma SeedInsertsDefaults(t: Tables)
    ensures Seed(t).users == t.users && Seed(t).votes == t.votes
    ensures Seed(t).userSeq == t.userSeq && Seed(t).voteSeq == t.voteSeq
    ensures |t.candidates| == 0 ==>
      Seed(t).candidates == [Candidate(t.candidateSeq + 1, "Alice Johnson", "Party A"),
                             Candidate(t.candidateSeq + 2, "Bob Smith", "Party B"),
                             Candidate(t.candidateSeq + 3, "Charlie Brown", "Party C")] &&
      Seed(t).candidateSeq == t.candidateSeq + 3
    ensures |t.candidates| > 0 ==> Seed(t) == t
  {
  }

  /** Seeding keeps every constraint. */
  lemma SeedConsistent(t: Tables)
    requires Consistent(t)
    ensures Consistent(Seed(t))
  {
  }

  /**
   * Running the initialisation again (on the file the first run left) changes
   * nothing: CREATE TABLE IF NOT EXISTS keeps the tables and rows, and the
   * candidates table is no longer empty.
   */
  lemma InitTwiceIsInitOnce(file: Option<Tables>)
    ensures Seed(CreateTables(Some(Seed(CreateTables(file))))) == Seed(CreateTables(file))
  {
  }

  /** The candidates a new database file starts with. */
  const FirstCandidates := [Candidate(1, "Alice Johnson", "Party A"), Candidate(2, "Bob Smith", "Party B"),
                            Candidate(3, "Charlie Brown", "Party C")]

  /** On a new database file the seeded candidates get ids 1, 2 and 3 and the other tables stay empty. */
  lemma FreshDatabaseSeeded()
    ensures Seed(CreateTables(None)) == Tables([], FirstCandidates, [], 0, 3, 0)
  {
  }

  /** Loading db.js against a new database file: open it, create the tables, seed the candidates. */
  method OpenNew() returns (db: Database)
    ensures fresh(db) && db.Valid()
    ensures db.Snapshot() == Tables([], FirstCandidates, [], 0, 3, 0)
  {
    db := new Database.Open(None);
    db.Init();
    FreshDatabaseSeeded();
  }

  /** The database connection: the three tables as fields that the inserts replace. */
  class Database {
    var users: seq<User>
    var candidates: seq<Candidate>
    var votes: seq<Vote>
    var userSeq: nat
    var candidateSeq: nat
    var voteSeq: nat

    /** The current contents of all three tables. */
    function Snapshot(): Tables
      reads this
    {
      Tables(users, candidates, votes, userSeq, candidateSeq, voteSeq)
    }

    predicate Valid()
      reads this
    {
      Consistent(Snapshot())
    }

    /**
     * Opens the database file and runs the three CREATE TABLE IF NOT EXISTS
     * statements. A file that already holds the tables satisfies their constraints.
     */
    constructor Open(file: Option<Tables>)
      requires file.Some? ==> Consistent(file.value)
      ensures Valid() && Snapshot() == CreateTables(file)
    {
      var t := CreateTables(file);
      users, candidates, votes := t.users, t.candidates, t.votes;
      userSeq, candidateSeq, voteSeq := t.userSeq, t.candidateSeq, t.voteSeq;
    }

    /** INSERT INTO users: refused by UNIQUE(email) when a row already has that email. */
    method InsertUser(name: string, email: string, passwordHash: string) returns (id: Option<nat>)
      requires Valid()
      modifies this
      ensures Valid()
      ensures id.None? <==> old(FindUserByEmail(users, email)).Some?
      ensures id.None? ==> Snapshot() == old(Snapshot())
      ensures id.Some? ==>
                id.value == old(userSeq) + 1 &&
                Snapshot() == AddUser(old(Snapshot()), name, email, passwordHash)
      ensures id.Some? ==> forall u :: u in old(users) ==> u.id < id.value
    {
      if FindUserByEmail(users, email).Some? {
        return None;
      }
      AddUserConsistent(Snapshot(), name, email, passwordHash);
      userSeq := userSeq + 1;
      users := users + [User(userSeq, name, email, passwordHash)];
      id := Some(userSeq);
    }

    /** INSERT INTO candidates: no constraint can refuse it. */
    method InsertCandidate(name: string, party: string) returns (id: nat)
      requires Valid()
      modifies this
      ensures Valid()
      ensures id == old(candidateSeq) + 1 && Snapshot() == AddCandidate(old(Snapshot()), name, party)
      ensures forall c :: c in old(candidates) ==> c.id < id
    {
      candidateSeq := candidateSeq + 1;
      candidates := candidates + [Candidate(candidateSeq, name, party)];
      id := candidateSeq;
    }

    /** INSERT INTO votes: refused by UNIQUE(user_id) when the user already has a row. */
    method InsertVote(userId: nat, candidateId: int) returns (id: Option<nat>)
      requires Valid()
      modifies this
      ensures Valid()
      ensures id.None? <==> old(FindVoteByUser(votes, userId)).Some?
      ensures id.None? ==> Snapshot() == old(Snapshot())
      ensures id.Some? ==>
                id.value == old(voteSeq) + 1 &&
                Snapshot() == AddVote(old(Snapshot()), userId, candidateId)
      ensures id.Some? ==> forall v :: v in old(votes) ==> v.id < id.value
    {
      if FindVoteByUser(votes, userId).Some? {
        return None;
      }
      AddVoteConsistent(Snapshot(), userId, candidateId);
      voteSeq := voteSeq + 1;
      votes := votes + [Vote(voteSeq, userId, candidateId)];
      id := Some(voteSeq);
    }

    /** Counts the candidates and, when there are none, inserts the three sample candidates. */
    method Init()
      requires Valid()
      modifies this
      ensures Valid() && Snapshot() == Seed(old(Snapshot()))
    {
      if |candidates| == 0 {
        var alice := InsertCandidate("Alice Johnson", "Party A");
        var bob := InsertCandidate("Bob Smith", "Party B");
        var charlie := InsertCandidate("Charlie Brown", "Party C");
      }
    }
  }
}
