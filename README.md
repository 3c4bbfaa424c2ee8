# Online voting backend: a Dafny model

This project models the backend of an online voting application. The backend
is an Express server (`backend/server.js`) over a SQLite file (`backend/db.js`).
Users register with name, email and password and log in to get a bearer token
(a JWT). With the token they can vote once for a candidate and ask whether
they have voted. Anyone can read the results: one row per candidate with its
vote count, highest count first, ties broken by name.

The model is a sequential state machine over the three tables.

- **Db** (`db.dfy`) covers `backend/db.js`. The tables `users`, `candidates` and `votes` are
  sequences of rows in id order. Each table also has the counter SQLite keeps for an
  AUTOINCREMENT key (the largest id ever issued). `Consistent` is the schema's invariant:
  - ids are positive, strictly ascending and never above the counter;
  - emails are pairwise distinct (`UNIQUE` on email);
  - each user has at most one vote row (`UNIQUE(user_id)`).

  The pure transitions `AddUser`, `AddCandidate`, `AddVote`, `CreateTables` and `Seed`
  specify the class `Database`. Its fields are the tables and counters. Its methods are
  the inserts, with the constraints enforced (`InsertUser`, `InsertVote`, `InsertCandidate`),
  and `Init`, which seeds the candidates.
- **Ranking** (`ranking.dfy`) is the results query of `/api/results`:
  - a LEFT JOIN count per candidate (`Count`, `Tally`);
  - the `ORDER BY votes DESC, name ASC` order (`Precedes`);
  - a stable insertion sort that realises that order (`Sort`).

  It proves that the result is sorted, is a permutation of the per-candidate rows, and
  has the expected sum.
- **LexOrder** (`lex_order.dfy`) is the string order of SQLite's default BINARY
  collation, on code points. It proves the order is total, transitive and antisymmetric.
  Dafny's built-in `<=` on sequences is the prefix order, so it cannot serve here.
- **Crypto** (`crypto.dfy`) stands for bcrypt and JWT. They are function values that the
  caller supplies:
  - `Bcrypt.hash(password, salt)`: the salt is the randomness bcrypt draws.
  - `Bcrypt.compare(password, digest)`.
  - `Jwt.sign(userId)` and `Jwt.verify(token)`: a `Jwt` value stands for one instant of
    the clock. Both functions read the clock: `sign` writes the issue time and the
    7-day expiry into the token, and `verify` rejects an expired token.

  The backend relies on two facts about these libraries, and the model states both:
  - `Sound`: a password matches its own digest;
  - `RoundTrips`: a token signed for a user id is non-empty and verifies, at the same
    instant, to that id.
- **Server** (`server.dfy`) holds the handlers:
  - bearer-token extraction and the `authRequired` check (`BearerToken`, `Authenticate`);
  - `/api/register` and `/api/vote`, as methods that change the `Database`;
  - `/api/login` and `/api/status`, as read-only functions of the tables;
  - the `/api/results` response;
  - a walk through the API on a new database (`Walkthrough`).

  Responses carry the source's status codes and error messages.

Four facts about the handlers shape the model:

- `vote` does not check that the candidate exists (`backend/server.js:92-102`), and SQLite
  does not enforce foreign keys by default. A vote for an unknown id is stored, and the
  results never count it (`UnknownCandidateNotCounted`). The sum of the results is the
  number of votes that name an existing candidate (`ResultsTotal`).
- `login` looks the user up and compares the password, and nothing else
  (`backend/server.js:59-64`). An unknown email and a wrong password give the same 401
  "Invalid credentials".
- `jwt.sign` is called with `expiresIn: '7d'` (`backend/server.js:64`), so a token is
  valid for 7 days.
- `register` writes the bcrypt digest to `password_hash` (`backend/server.js:45`).

## Model

| member | source | states |
|---|---|---|
| `Db.FindUserByEmail` | backend/server.js:41 | the email lookup yields a user of the table with exactly that email, and yields none exactly when no row has that email |
| `Db.FindVoteByUser` | backend/server.js:94 | the vote lookup yields a row of that user, and yields none exactly when the user has no vote row |
| `Db.FindUserUnique` | backend/db.js:21 | with unique emails, the lookup by a user's email finds that very user |
| `Db.FindVoteUnique` | backend/db.js:41 | with one vote row per user, the lookup by user finds that very row |
| `Db.AddUserConsistent` | backend/db.js:18-23 | appending a user with the next id keeps every constraint if and only if no existing row has the same email |
| `Db.AddVoteConsistent` | backend/db.js:35-42 | appending a vote with the next id keeps every constraint if and only if the user had no vote row |
| `Db.AddUser` | backend/db.js:18-23 | an admitted INSERT INTO users: the row gets id counter+1, which is above every id in a well-formed table; earlier rows and the other tables are unchanged |
| `Db.AddCandidate` | backend/db.js:48 | INSERT INTO candidates: the row gets id counter+1 and is appended; the candidates table stays well-formed; the other tables are unchanged |
| `Db.AddVote` | backend/db.js:35-42 | an admitted INSERT INTO votes: the row gets id counter+1, which is above every id in a well-formed table; earlier rows and the other tables are unchanged |
| `Db.CreateTables` | backend/db.js:16-43 | CREATE TABLE IF NOT EXISTS: an existing file's tables are kept as they are, a new file gets empty tables, and the constraints hold either way |
| `Db.Seed` | backend/db.js:46-55 | seeding only appends candidates, always leaves the candidates table non-empty, and does not touch users or votes |
| `Db.SeedInsertsDefaults` | backend/db.js:46-55 | on an empty candidates table seeding appends Alice Johnson/Party A, Bob Smith/Party B, Charlie Brown/Party C in that order with the next three ids; on a non-empty one it changes nothing; users and votes never change |
| `Db.SeedConsistent` | backend/db.js:46-55 | seeding keeps every constraint |
| `Db.InitTwiceIsInitOnce` | backend/db.js:16-56 | creating the tables and seeding again on the file the first run left gives the same tables as running once |
| `Db.FreshDatabaseSeeded` | backend/db.js:46-52 | on a new database file the three candidates get ids 1, 2, 3 and users and votes are empty |
| `Db.OpenNew` | backend/db.js:16-56 | loading the module against a new file yields a consistent database holding only the three sample candidates |
| `Db.Database.Open` | backend/db.js:16-43 | CREATE TABLE IF NOT EXISTS keeps an existing file's tables and rows unchanged and gives a new file empty tables |
| `Db.Database.InsertUser` | backend/db.js:18-23 | the insert is refused, with no change, exactly when the email exists; otherwise exactly one row with id counter+1 (above every earlier id) is appended and the constraints still hold |
| `Db.Database.InsertCandidate` | backend/db.js:48 | appends exactly one candidate with id counter+1, above every earlier id |
| `Db.Database.InsertVote` | backend/db.js:35-42 | the insert is refused, with no change, exactly when the user has a vote row; otherwise exactly one row with id counter+1 is appended and at most one row per user remains |
| `Db.Database.Init` | backend/db.js:46-55 | the tables become `Seed` of the old tables and stay consistent |
| `LexOrder.LexLeReflexive` | backend/server.js:114 | every name sorts at or before itself |
| `LexOrder.LexLeTotal` | backend/server.js:114 | any two names are comparable in the name order |
| `LexOrder.LexLeTransitive` | backend/server.js:114 | the name order is transitive |
| `LexOrder.LexLeAntisymmetric` | backend/server.js:114 | two names each at or before the other are equal |
| `LexOrder.PrefixLexLe` | backend/server.js:114 | a prefix sorts before the longer name |
| `Ranking.Count` | backend/server.js:110-112 | a candidate's count is at most the number of votes, and it is 0 exactly when no vote row names its id |
| `Ranking.Tally` | backend/server.js:108-113 | the grouped join has exactly one row per candidate, carrying its id, name, party and count |
| `Ranking.Precedes` | backend/server.js:114 | the ORDER BY votes DESC, name ASC relation: a row with more votes always comes first, and one with fewer never does |
| `Ranking.PrecedesAntisymmetric` | backend/server.js:114 | two rows may each come before the other only when they have the same votes and the same name |
| `Ranking.PrecedesTotal` | backend/server.js:114 | any two result rows are ordered one way or the other by (votes desc, name asc) |
| `Ranking.PrecedesTransitive` | backend/server.js:114 | the (votes desc, name asc) order is transitive |
| `Ranking.Place` | backend/server.js:114 | inserting a row adds exactly that row (as a multiset) and adds its votes to the total |
| `Ranking.Sort` | backend/server.js:114 | sorting is a permutation of its input and keeps the total |
| `Ranking.PlaceRanked` | backend/server.js:114 | inserting into rows sorted by (votes desc, name asc) keeps them sorted |
| `Ranking.SortRanked` | backend/server.js:114 | the sorted rows are in (votes desc, name asc) order |
| `Ranking.Results` | backend/server.js:108-114 | the results have one row per candidate, are a permutation of the per-candidate groups, and are ordered by votes descending then name ascending |
| `Ranking.ResultsRows` | backend/server.js:108-113 | every candidate appears with its own count, and every result row is some candidate's group |
| `Ranking.TallyTotal` | backend/server.js:110-112 | with distinct candidate ids, the counts add up to the number of vote rows naming an existing candidate |
| `Ranking.ResultsTotal` | backend/server.js:108-114 | the votes column of the results sums to the votes naming existing candidates, and to all vote rows when every row names one |
| `Ranking.CountAppend` | backend/server.js:110-112 | one more vote row raises the count of the candidate it names by one and no other |
| `Ranking.TallyAfterVote` | backend/server.js:108-113 | after one more vote row, each candidate's group is unchanged except that the named candidate's count is one higher |
| `Ranking.UnknownCandidateNotCounted` | backend/server.js:112 | a vote row naming no existing candidate leaves the results exactly as they were |
| `Server.Given` | backend/server.js:37 | JavaScript's truth test on a string field: a missing field and "" are false, and any other string is true |
| `Server.GivenId` | backend/server.js:92 | JavaScript's truth test on candidateId: a missing field and 0 are false, and any other integer is true |
| `Server.BearerToken` | backend/server.js:22-23 | a token is extracted only from a header starting with "Bearer ", and header = "Bearer " + token; otherwise none |
| `Server.Authenticate` | backend/server.js:21-32 | 401 "Missing token" exactly when the header is absent or is not "Bearer " followed by at least one character; otherwise 401 "Invalid or expired token" or the user id that the token after the prefix verifies to |
| `Server.BearerAuthenticates` | backend/server.js:22-30 | a header "Bearer " + non-empty token yields the verified user id, or 401 "Invalid or expired token" when verification fails |
| `Server.Register` | backend/server.js:35-52 | 400 when name, email or password is missing or empty, and 409 when the email exists, both with no change; otherwise 200 with the new id, and exactly one user row holding hash(password, salt) is appended |
| `Server.Login` | backend/server.js:54-67 | 400 when email or password is missing; any other failure is the same 401 "Invalid credentials"; 200 only with a token signed for a user with that email whose digest matches the password |
| `Server.LoginSucceedsIff` | backend/server.js:59-64 | with unique emails, login succeeds if and only if a user with that email has a digest matching the password |
| `Server.RegisterThenLogin` | backend/server.js:35-67 | after a successful registration, logging in with the same email and password returns a token for the new id, with the name and email |
| `Server.CastVote` | backend/server.js:90-105 | auth failures pass through unchanged; 400 for a missing or 0 candidateId and 409 when the user already has a vote row, both with no change; otherwise 200 with the new vote id and exactly the row (user, candidate) appended, whether or not the candidate exists |
| `Server.Status` | backend/server.js:76-81 | read-only; hasVoted is true if and only if a vote row of the user exists, and candidateId is that row's candidate, else null |
| `Server.StatusAfterVote` | backend/server.js:77-79 | once the user's vote row is added, status reports hasVoted with that candidate |
| `Server.ResultsResponse` | backend/server.js:107-119 | 200 with rows in (votes desc, name asc) order that are a permutation of the per-candidate groups |
| `Server.Walkthrough` | backend/server.js:35-119 | on a new database: register gives id 1, login gives the token for user 1, a vote for candidate 1 succeeds, a second vote for candidate 2 gets 409, and the results are Alice Johnson 1, Bob Smith 0, Charlie Brown 0 |

## Left out

- The frontend (`frontend/app.js`): DOM rendering, fetch, localStorage and the floating-point bar widths.
- The internals of bcrypt and jsonwebtoken. They are the function values in `Crypto`.
- `Server.Login`: the token string is a function of the user id within one `Jwt` value. Two logins by the same user at different moments give different tokens in the source; the model does not relate the `Jwt` values of different moments.
- Express plumbing: CORS, JSON parsing, static files, the `*` fallback and `app.listen`.
- The `/api/me` and `/api/candidates` handlers. They only read one table, and `Database` exposes the tables directly.
- The SQLite connection and its logging.
- Every 500 "Database error" / "Failed to ..." path. In a sequential model the lookups cannot fail. The insert after a successful uniqueness check cannot be refused, and the handlers assert that.
- Concurrency: the race between the uniqueness check and the insert needs parallel requests.
- Mismatches between the files that would crash the program. `db.js` exports only `db`, but `server.js` imports `init`. The users column is named `password`, but `server.js` writes `password_hash`. `avatar_url` is selected but does not exist. The model uses the intended tables.
- Request fields that are JSON values other than strings or integers. Such values are not modelled, and neither is SQLite's type affinity on them. `name`, `email` and `password` are optional strings, where "" counts as missing. `candidateId` is an optional integer, where 0 counts as missing.
- The token payload is taken to carry a natural-number `userId`. A token for a user id that has no row is not rejected, and neither is it in the source.
- `Db.Database.Open`: CREATE TABLE IF NOT EXISTS is modelled for all three tables together. A file holding only some of the tables is not modelled.
- `Ranking.Results`: rows that tie on both votes and name keep candidate-table order. SQL leaves their order unspecified.
- `Server.Status`: with several vote rows for one user (which the constraint excludes), the model reports the first. Its contract says only that the reported candidate comes from some row of that user.
- Integer widths: ids, the AUTOINCREMENT counters and `candidateId` are unbounded `nat`/`int`. SQLite's rowid is 64-bit, so an AUTOINCREMENT insert fails with SQLITE_FULL after 2^63-1. JavaScript numbers, such as `this.lastID` and a `candidateId` parsed from JSON, lose precision above 2^53. No property here depends on those limits.
