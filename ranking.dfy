/**
 * The query behind GET /api/results: every candidate LEFT JOINed with the
 * votes that name its id, grouped per candidate, COUNT(v.id) as its votes,
 * ordered by votes descending and then name ascending.
 */
module Ranking {
  import opened LexOrder
  import opened Db

  /** One result row: the candidate's columns and its vote count. */
  datatype Standing = Standing(id: nat, name: string, party: string, votes: nat)

  /** The number of vote rows naming `candidateId`; zero when none does (the LEFT JOIN's null side). */
  function Count(votes: seq<Vote>, candidateId: int): (n: nat)
    ensures n <= |votes|
    ensures n == 0 <==> forall v :: v in votes ==> v.candidateId != candidateId
  {
    if votes == [] then 0
    else (if votes[0].candidateId == candidateId then 1 else 0) + Count(votes[1..], candidateId)
  }

  /** The group of one candidate. */
  function Row(c: Candidate, votes: seq<Vote>): Standing
  {
    Standing(c.id, c.name, c.party, Count(votes, c.id))
  }

  /** GROUP BY c.id over the join, before ORDER BY: one row per candidate, in table order. */
  function Tally(candidates: seq<Candidate>, votes: seq<Vote>): (rows: seq<Standing>)
    ensures |rows| == |candidates|
    ensures forall i :: 0 <= i < |candidates| ==> rows[i] == Row(candidates[i], votes)
  {
    if candidates == [] then [] else [Row(candidates[0], votes)] + Tally(candidates[1..], votes)
  }

  /** ORDER BY votes DESC, name ASC: `a` may come before `b`. More votes always come first. */
  predicate Precedes(a: Standing, b: Standing)
    ensures a.votes > b.votes ==> Precedes(a, b)
    ensures a.votes < b.votes ==> !Precedes(a, b)
  {
    a.votes > b.votes || (a.votes == b.votes && LexLe(a.name, b.name))
  }

  /** Every row may come before every later row. */
  predicate Ranked(rows: seq<Standing>)
  {
    forall i, j :: 0 <= i < j < |rows| ==> Precedes(rows[i], rows[j])
  }

  /** The sum of the votes column. */
  function Total(rows: seq<Standing>): nat
  {
    if rows == [] then 0 else rows[0].votes + Total(rows[1..])
  }

  /** The set of candidate ids. */
  function Ids(candidates: seq<Candidate>): set<int>
  {
    set c | c in candidates :: c.id as int
  }

  /** The number of vote rows whose candidate id is in `ids`: the rows an inner join would keep. */
  function CountAmong(votes: seq<Vote>, ids: set<int>): nat
  {
    if votes == [] then 0
    else (if votes[0].candidateId in ids then 1 else 0) + CountAmong(votes[1..], ids)
  }

  lemma PrecedesTotal(a: Standing, b: Standing)
    ensures Precedes(a, b) || Precedes(b, a)
  {
    LexLeTotal(a.name, b.name);
  }

  lemma PrecedesTransitive(a: Standing, b: Standing, c: Standing)
    requires Precedes(a, b) && Precedes(b, c)
    ensures Precedes(a, c)
  {
    if a.votes == b.votes == c.votes {
      LexLeTransitive(a.name, b.name, c.name);
    }
  }

  /** Two rows may each come before the other only when they agree on both sort keys. */
  lemma PrecedesAntisymmetric(a: Standing, b: Standing)
    requires Precedes(a, b) && Precedes(b, a)
    ensures a.votes == b.votes && a.name == b.name
  {
    LexLeAntisymmetric(a.name, b.name);
  }

  /**
   * Inserts `x` before the first row it may precede, a row it ties with
   * completely included.
   */
  function Place(x: Standing, rows: seq<Standing>): (r: seq<Standing>)
    ensures |r| == |rows| + 1
    ensures multiset(r) == multiset(rows) + multiset{x}
    ensures Total(r) == x.votes + Total(rows)
  {
    if rows == [] then [x]
    else if Precedes(x, rows[0]) then [x] + rows
    else
      var rest := Place(x, rows[1..]);
      assert rows == [rows[0]] + rows[1..];
      assert ([rows[0]] + rest)[1..] == rest;
      [rows[0]] + rest
  }

  /**
   * Insertion sort by Precedes. It inserts the earlier input rows last, so
   * each goes in front of the later rows it ties with completely: the sort is
   * stable, and complete ties keep the input order.
   */
  function Sort(rows: seq<Standing>): (r: seq<Standing>)
    ensures |r| == |rows|
    ensures multiset(r) == multiset(rows)
    ensures Total(r) == Total(rows)
  {
    if rows == [] then []
    else
      assert rows == [rows[0]] + rows[1..];
      Place(rows[0], Sort(rows[1..]))
  }

  lemma RankedCons(a: Standing, rows: seq<Standing>)
    requires Ranked(rows)
    requires forall y :: y in rows ==> Precedes(a, y)
    ensures Ranked([a] + rows)
  {
    var s := [a] + rows;
    forall i, j | 0 <= i < j < |s| ensures Precedes(s[i], s[j]) {
      assert s[j] == rows[j - 1];
      if i > 0 {
        assert s[i] == rows[i - 1];
      }
    }
  }

  lemma {:induction false} PlaceRanked(x: Standing, rows: seq<Standing>)
    requires Ranked(rows)
    ensures Ranked(Place(x, rows))
  {
    if rows == [] {
    } else if Precedes(x, rows[0]) {
      forall y | y in rows ensures Precedes(x, y) {
        var k :| 0 <= k < |rows| && rows[k] == y;
        if k > 0 {
          PrecedesTransitive(x, rows[0], y);
        }
      }
      RankedCons(x, rows);
    } else {
      var tail := rows[1..];
      var rest := Place(x, tail);
      PlaceRanked(x, tail);
      PrecedesTotal(x, rows[0]);
      forall y | y in rest ensures Precedes(rows[0], y) {
        assert y in multiset(rest);
        if y != x {
          assert y in multiset(tail);
          var k :| 0 <= k < |tail| && tail[k] == y;
          assert rows[k + 1] == y;
        }
      }
      RankedCons(rows[0], rest);
    }
  }

  lemma {:induction false} SortRanked(rows: seq<Standing>)
    ensures Ranked(Sort(rows))
  {
    if rows != [] {
      SortRanked(rows[1..]);
      PlaceRanked(rows[0], Sort(rows[1..]));
    }
  }

  /**
   * The rows of GET /api/results: exactly the per-candidate groups, one per
   * candidate, rearranged into the ORDER BY order.
   */
  function Results(candidates: seq<Candidate>, votes: seq<Vote>): (rows: seq<Standing>)
    ensures |rows| == |candidates|
    ensures multiset(rows) == multiset(Tally(candidates, votes))
    ensures Ranked(rows)
  {
    SortRanked(Tally(candidates, votes));
    Sort(Tally(candidates, votes))
  }

  /** Every candidate has its row, with its own count, and every row is some candidate's. */
  lemma ResultsRows(candidates: seq<Candidate>, votes: seq<Vote>)
    ensures forall c :: c in candidates ==> Row(c, votes) in Results(candidates, votes)
    ensures forall s :: s in Results(candidates, votes) ==> exists c :: c in candidates && s == Row(c, votes)
  {
    var rows := Results(candidates, votes);
    var tally := Tally(candidates, votes);
    forall c | c in candidates ensures Row(c, votes) in rows {
      var i :| 0 <= i < |candidates| && candidates[i] == c;
      assert tally[i] == Row(c, votes);
      assert Row(c, votes) in multiset(tally);
    }
    forall s | s in rows ensures exists c :: c in candidates && s == Row(c, votes) {
      assert s in multiset(rows);
      assert s in tally;
      var i :| 0 <= i < |tally| && tally[i] == s;
      assert candidates[i] in candidates;
    }
  }

  lemma {:induction false} CountAmongSplit(votes: seq<Vote>, a: int, ids: set<int>)
    requires a !in ids
    ensures CountAmong(votes, ids + {a}) == Count(votes, a) + CountAmong(votes, ids)
  {
    if votes != [] {
      CountAmongSplit(votes[1..], a, ids);
    }
  }

  lemma {:induction false} CountAmongAll(votes: seq<Vote>, ids: set<int>)
    requires forall v :: v in votes ==> v.candidateId in ids
    ensures CountAmong(votes, ids) == |votes|
  {
    if votes != [] {
      assert votes[0] in votes;
      forall v | v in votes[1..] ensures v.candidateId in ids {
        assert v in votes;
      }
      CountAmongAll(votes[1..], ids);
    }
  }

  lemma {:induction false} CountAmongNone(votes: seq<Vote>)
    ensures CountAmong(votes, {}) == 0
  {
    if votes != [] {
      CountAmongNone(votes[1..]);
    }
  }

  lemma {:induction false} TallyTotal(candidates: seq<Candidate>, votes: seq<Vote>)
    requires forall i, j :: 0 <= i < j < |candidates| ==> candidates[i].id != candidates[j].id
    ensures Total(Tally(candidates, votes)) == CountAmong(votes, Ids(candidates))
  {
    if candidates != [] {
      var rest := candidates[1..];
      var a := candidates[0].id as int;
      TallyTotal(rest, votes);
      assert Ids(candidates) == Ids(rest) + {a} by {
        assert candidates == [candidates[0]] + rest;
      }
      assert a !in Ids(rest) by {
        forall c | c in rest ensures c.id as int != a {
          var k :| 0 <= k < |rest| && rest[k] == c;
          assert candidates[k + 1] == c;
        }
      }
      CountAmongSplit(votes, a, Ids(rest));
      var t := Tally(candidates, votes);
      assert t[1..] == Tally(rest, votes);
      assert t[0].votes == Count(votes, a);
      assert Total(t) == t[0].votes + Total(t[1..]);
    } else {
      assert Ids(candidates) == {};
      CountAmongNone(votes);
    }
  }

  /**
   * The votes column adds up to the number of vote rows that name an existing
   * candidate, and to the number of all vote rows when every row does.
   */
  lemma ResultsTotal(candidates: seq<Candidate>, votes: seq<Vote>)
    requires forall i, j :: 0 <= i < j < |candidates| ==> candidates[i].id != candidates[j].id
    ensures Total(Results(candidates, votes)) == CountAmong(votes, Ids(candidates))
    ensures (forall v :: v in votes ==> v.candidateId in Ids(candidates)) ==>
              Total(Results(candidates, votes)) == |votes|
  {
    TallyTotal(candidates, votes);
    if forall v :: v in votes ==> v.candidateId in Ids(candidates) {
      CountAmongAll(votes, Ids(candidates));
    }
  }

  lemma {:induction false} CountAppend(votes: seq<Vote>, v: Vote, candidateId: int)
    ensures Count(votes + [v], candidateId) ==
            Count(votes, candidateId) + (if v.candidateId == candidateId then 1 else 0)
  {
    if votes != [] {
      assert (votes + [v])[1..] == votes[1..] + [v];
      CountAppend(votes[1..], v, candidateId);
    }
  }

  /** One more vote row raises the count of the candidate it names by one and leaves every other count alone. */
  lemma TallyAfterVote(candidates: seq<Candidate>, votes: seq<Vote>, v: Vote)
    ensures forall i :: 0 <= i < |candidates| ==>
      Tally(candidates, votes + [v])[i] ==
      Tally(candidates, votes)[i].(votes := Tally(candidates, votes)[i].votes +
                                            (if candidates[i].id == v.candidateId then 1 else 0))
  {
    forall i | 0 <= i < |candidates| {
      CountAppend(votes, v, candidates[i].id);
    }
  }

  /** A vote row naming no existing candidate leaves the results exactly as they were. */
  lemma UnknownCandidateNotCounted(candidates: seq<Candidate>, votes: seq<Vote>, v: Vote)
    requires v.candidateId !in Ids(candidates)
    ensures Results(candidates, votes + [v]) == Results(candidates, votes)
  {
    TallyAfterVote(candidates, votes, v);
    forall i | 0 <= i < |candidates| ensures candidates[i].id as int != v.candidateId {
      assert candidates[i] in candidates;
    }
    assert Tally(candidates, votes + [v]) == Tally(candidates, votes);
  }
}
