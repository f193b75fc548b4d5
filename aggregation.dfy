/** The computation of `/calculate`: the query rows of the active pack are
    grouped by voter, each voter's scores are damped by the logarithm of the
    number of movies they rated, the damped scores are summed per movie, and
    the per-movie totals are ranked from highest to lowest.

    `Math.log2` is a parameter of the model: the only fact the computation
    needs about it is that it is positive from 2 on, which is where the
    grouping guarantees every argument lies. */
module Aggregation {
  import opened Text

  /** One row of `SELECT u.telegram_id, u.username, m.title, v.score ...`. */
  datatype Row = Row(telegramId: nat, username: string, title: string, score: real)

  /** Title to score (or to damped score). */
  type Ratings = map<string, real>

  /** Voter key to that voter's ratings. */
  type Grouped = map<string, Ratings>

  /** The outcome of the computation: either there were no rows at all, or
      the ranked totals and each voter's damped scores. */
  datatype Aggregate = NoVotes | Report(ranking: seq<(string, real)>, contributions: Grouped)

  /** `row.username || row.telegram_id.toString()`: the voter a row is
      counted for. The key is never empty; it is the stored name when there
      is one, and otherwise the decimal digits of the Telegram id, which read
      back as that id. */
  function VoterKey(r: Row): (k: string)
    ensures k != ""
    ensures r.username != "" ==> k == r.username
    ensures r.username == "" ==> (forall i :: 0 <= i < |k| ==> '0' <= k[i] <= '9') && DecimalValue(k) == r.telegramId
  {
    if r.username != "" then r.username
    else
      DecimalRoundTrip(r.telegramId);
      DecimalString(r.telegramId)
  }

  /** The first loop of `/calculate`: rows are grouped by voter and, within a
      voter, by title; a later row with the same voter and title overwrites
      the earlier one. Every voter present has at least one rating. */
  function Group(rows: seq<Row>): (g: Grouped)
    ensures forall v :: v in g ==> |g[v]| >= 1
    decreases |rows|
  {
    if rows == [] then map[]
    else
      var g := Group(rows[..|rows| - 1]);
      var r := rows[|rows| - 1];
      var k := VoterKey(r);
      var mine := (if k in g then g[k] else map[])[r.title := r.score];
      assert r.title in mine.Keys;
      g[k := mine]
  }

  /** The order in which `Object.entries(votes)` visits the voters: each voter
      once, in order of first appearance. */
  function VoterOrder(rows: seq<Row>): (vs: seq<string>)
    ensures forall i, j :: 0 <= i < j < |vs| ==> vs[i] != vs[j]
    ensures forall v :: v in vs <==> v in Group(rows)
    decreases |rows|
  {
    if rows == [] then []
    else
      var vs := VoterOrder(rows[..|rows| - 1]);
      var k := VoterKey(rows[|rows| - 1]);
      if k in vs then vs else vs + [k]
  }

  /** `Math.log2` is positive on every argument from 2 on. */
  ghost predicate Log2Positive(log2: nat -> real)
  {
    forall m: nat :: m >= 2 ==> log2(m) > 0.0
  }

  /** One voter's damped scores: each score divided by
      `log2(numVotes + 1)`, where `numVotes` is the number of distinct titles
      the voter rated. */
  function Weights(ratings: Ratings, log2: nat -> real): Ratings
    requires Log2Positive(log2) && |ratings| >= 1
  {
    Scaled(ratings, log2(|ratings| + 1))
  }

  /** Every score of `ratings` divided by `divisor`. */
  function Scaled(ratings: Ratings, divisor: real): Ratings
    requires divisor != 0.0
  {
    map t | t in ratings :: ratings[t] / divisor
  }

  /** The `contributions` dictionary: every voter's damped scores. */
  function Contributions(g: Grouped, log2: nat -> real): Grouped
    requires Log2Positive(log2)
    requires forall v :: v in g ==> |g[v]| >= 1
  {
    map v | v in g :: Weights(g[v], log2)
  }

  /** The titles rated by the first `n` voters of `vs`. */
  function TitlesOf(c: Grouped, vs: seq<string>, n: nat): set<string>
    requires n <= |vs|
  {
    if n == 0 then {}
    else TitlesOf(c, vs, n - 1) + (if vs[n - 1] in c then c[vs[n - 1]].Keys else {})
  }

  /** The sum of the contributions of the first `n` voters of `vs` to title
      `t`, added in the order of `vs`. */
  function TotalOver(c: Grouped, vs: seq<string>, n: nat, t: string): real
    requires n <= |vs|
  {
    if n == 0 then 0.0
    else TotalOver(c, vs, n - 1, t) + (if vs[n - 1] in c && t in c[vs[n - 1]] then c[vs[n - 1]][t] else 0.0)
  }

  /** The `totals` dictionary after the first `n` voters of `vs` have been
      visited. */
  function TotalsAt(c: Grouped, vs: seq<string>, n: nat): map<string, real>
    requires n <= |vs|
  {
    map t | t in TitlesOf(c, vs, n) :: TotalOver(c, vs, n, t)
  }

  /** The `totals` dictionary after all the voters `vs` have been visited. */
  function TotalsOf(c: Grouped, vs: seq<string>): map<string, real>
  {
    TotalsAt(c, vs, |vs|)
  }

  /** The entries of a totals dictionary, `Object.entries(totals)` as a set. */
  function EntrySet(totals: map<string, real>): set<(string, real)>
  {
    set t | t in totals :: (t, totals[t])
  }

  /** A ranking of the totals: every entry exactly once, ordered by
      non-increasing total. */
  ghost predicate IsRanking(ranking: seq<(string, real)>, totals: map<string, real>)
  {
    NonIncreasing(ranking) && multiset(ranking) == multiset(EntrySet(totals))
  }

  /** Entries ordered by non-increasing total. */
  predicate NonIncreasing(s: seq<(string, real)>)
  {
    forall i, j :: 0 <= i < j < |s| ==> s[i].1 >= s[j].1
  }

  /** One more row extends the grouping and the voter order as the first
      loop of `/calculate` does. */
  lemma GroupStep(rows: seq<Row>, i: nat)
    requires i < |rows|
    ensures var g, k := Group(rows[..i]), VoterKey(rows[i]);
      Group(rows[..i + 1]) == g[k := (if k in g then g[k] else map[])[rows[i].title := rows[i].score]]
    ensures var vs, k := VoterOrder(rows[..i]), VoterKey(rows[i]);
      VoterOrder(rows[..i + 1]) == if k in vs then vs else vs + [k]
  {
    assert rows[..i + 1][..i] == rows[..i];
  }

  /** The first loop of `/calculate`, over the query rows. */
  method GroupVotes(rows: seq<Row>) returns (votes: Grouped, voters: seq<string>)
    ensures votes == Group(rows)
    ensures voters == VoterOrder(rows)
  {
    votes, voters := map[], [];
    for i := 0 to |rows|
      invariant votes == Group(rows[..i])
      invariant voters == VoterOrder(rows[..i])
    {
      var row := rows[i];
      var voter := VoterKey(row);
      GroupStep(rows, i);
      var ratings: Ratings := map[];
      if voter in votes {
        ratings := votes[voter];
      } else {
        voters := voters + [voter];
      }
      votes := votes[voter := ratings[row.title := row.score]];
    }
    assert rows[..|rows|] == rows;
  }

  /** A title none of the first `n` voters rated has total zero. */
  lemma {:induction false} TotalOverUnrated(c: Grouped, vs: seq<string>, n: nat, t: string)
    requires n <= |vs|
    requires t !in TitlesOf(c, vs, n)
    ensures TotalOver(c, vs, n, t) == 0.0
  {
    if n != 0 {
      TotalOverUnrated(c, vs, n - 1, t);
    }
  }

  /** `totals` with each score of `weighted` added to its title's entry, a
      missing entry counting as zero. */
  function AddTo(totals: map<string, real>, weighted: Ratings): map<string, real>
  {
    map t | t in totals.Keys + weighted.Keys ::
      (if t in totals then totals[t] else 0.0) + (if t in weighted then weighted[t] else 0.0)
  }

  /** Visiting one more voter adds that voter's damped scores to the totals. */
  lemma TotalsStep(c: Grouped, vs: seq<string>, j: nat)
    requires j < |vs|
    ensures TotalsAt(c, vs, j + 1) == AddTo(TotalsAt(c, vs, j), if vs[j] in c then c[vs[j]] else map[])
  {
    var before, after := TotalsAt(c, vs, j), TotalsAt(c, vs, j + 1);
    var mine: Ratings := if vs[j] in c then c[vs[j]] else map[];
    forall t | t in after && t !in before
      ensures after[t] == AddTo(before, mine)[t]
    {
      TotalOverUnrated(c, vs, j, t);
    }
  }

  /** The inner loop of the second loop of `/calculate`, for one voter with
      scores `ratings` and divisor `log2(numVotes + 1)`: each damped score is
      recorded as the voter's contribution and added to the title's running
      total. The order in which the titles are visited does not matter. */
  method AddVoter(totals: map<string, real>, ratings: Ratings, divisor: real)
    returns (newTotals: map<string, real>, mine: Ratings)
    requires divisor != 0.0
    ensures mine == Scaled(ratings, divisor)
    ensures newTotals == AddTo(totals, mine)
  {
    newTotals, mine := totals, map[];
    var rest := ratings.Keys;
    while rest != {}
      invariant rest <= ratings.Keys
      invariant forall t :: t in mine <==> t in ratings && t !in rest
      invariant forall t :: t in mine ==> mine[t] == ratings[t] / divisor
      invariant forall t :: t in newTotals <==> t in totals || t in mine
      invariant forall t :: t in newTotals ==>
        newTotals[t] == (if t in totals then totals[t] else 0.0) + (if t in mine then mine[t] else 0.0)
      decreases rest
    {
      var movie :| movie in rest;
      var weighted := ratings[movie] / divisor;
      var prev := if movie in newTotals then newTotals[movie] else 0.0;
      newTotals := newTotals[movie := prev + weighted];
      mine := mine[movie := weighted];
      rest := rest - {movie};
    }
  }

  /** What the damped scores `c` must be for the voters `votes`. */
  ghost predicate DampedBy(c: Grouped, votes: Grouped, log2: nat -> real)
  {
    forall v :: v in votes ==>
      v in c && log2(|votes[v]| + 1) != 0.0 && c[v] == Scaled(votes[v], log2(|votes[v]| + 1))
  }

  /** What the loop of `/calculate` over the voters has built after visiting
      the first `j` voters of `voters`. */
  ghost predicate WeighedUpTo(totals: map<string, real>, contributions: Grouped,
                              c: Grouped, voters: seq<string>, j: nat)
  {
    && j <= |voters|
    && (forall i :: 0 <= i < j ==> voters[i] in contributions)
    && (forall v :: v in contributions ==> v in c && contributions[v] == c[v])
    && totals == TotalsAt(c, voters, j)
  }

  /** Recording the damped scores of voter `voters[j]` and adding them to
      the totals completes one more step of the loop over the voters. */
  lemma WeighStep(totals: map<string, real>, contributions: Grouped, c: Grouped,
                  voters: seq<string>, j: nat)
    requires j < |voters| && voters[j] in c
    requires WeighedUpTo(totals, contributions, c, voters, j)
    ensures WeighedUpTo(AddTo(totals, c[voters[j]]), contributions[voters[j] := c[voters[j]]], c, voters, j + 1)
  {
    TotalsStep(c, voters, j);
  }

  /** One iteration of the loop of `/calculate` over the voters: the voter
      `voters[j]` is weighed and recorded. */
  method WeighVoter(totals: map<string, real>, contributions: Grouped, votes: Grouped,
                    voters: seq<string>, j: nat, log2: nat -> real, ghost c: Grouped)
    returns (newTotals: map<string, real>, newContributions: Grouped)
    requires j < |voters| && voters[j] in votes
    requires DampedBy(c, votes, log2)
    requires WeighedUpTo(totals, contributions, c, voters, j)
    ensures WeighedUpTo(newTotals, newContributions, c, voters, j + 1)
  {
    var voter := voters[j];
    var ratings := votes[voter];
    var numVotes := |ratings|;
    var divisor := log2(numVotes + 1);
    var mine;
    newTotals, mine := AddVoter(totals, ratings, divisor);
    newContributions := contributions[voter := mine];
    WeighStep(totals, contributions, c, voters, j);
  }

  /** The loop of `/calculate` over the voters, in the order `voters`,
      against the damped scores `c` it is to reproduce. */
  method WeighAll(votes: Grouped, voters: seq<string>, log2: nat -> real, ghost c: Grouped)
    returns (totals: map<string, real>, contributions: Grouped)
    requires forall i :: 0 <= i < |voters| ==> voters[i] in votes
    requires DampedBy(c, votes, log2)
    ensures WeighedUpTo(totals, contributions, c, voters, |voters|)
  {
    totals, contributions := map[], map[];
    for j := 0 to |voters|
      invariant WeighedUpTo(totals, contributions, c, voters, j)
    {
      totals, contributions := WeighVoter(totals, contributions, votes, voters, j, log2, c);
    }
  }

  /** The second loop of `/calculate`: every voter's damped scores are
      recorded as that voter's contributions and summed, voter by voter in
      the order `voters`, into the per-title totals. */
  method Weigh(votes: Grouped, voters: seq<string>, log2: nat -> real)
    returns (totals: map<string, real>, contributions: Grouped)
    requires Log2Positive(log2)
    requires forall v :: v in votes ==> |votes[v]| >= 1
    requires forall v :: v in voters <==> v in votes
    ensures contributions == Contributions(votes, log2)
    ensures totals == TotalsOf(contributions, voters)
  {
    ghost var c := Contributions(votes, log2);
    totals, contributions := WeighAll(votes, voters, log2, c);
    assert contributions.Keys == c.Keys;
  }

  /** `Object.entries(totals)`: every entry once, in some order. */
  method EntriesOf(totals: map<string, real>) returns (es: seq<(string, real)>)
    ensures multiset(es) == multiset(EntrySet(totals))
  {
    es := [];
    var rest := totals.Keys;
    while rest != {}
      invariant rest <= totals.Keys
      invariant forall e :: multiset(es)[e] == if e.0 in totals && e.0 !in rest && e.1 == totals[e.0] then 1 else 0
      decreases rest
    {
      var movie :| movie in rest;
      es := es + [(movie, totals[movie])];
      rest := rest - {movie};
    }
    assert forall e :: multiset(es)[e] == multiset(EntrySet(totals))[e];
  }

  /** Inserts `e` after every leading entry whose total is at least `e`'s,
      as a stable sort by descending total places it. */
  function InsertByTotal(e: (string, real), s: seq<(string, real)>): (r: seq<(string, real)>)
    ensures multiset(r) == multiset(s) + multiset{e}
  {
    if s == [] then [e]
    else if s[0].1 >= e.1 then
      assert s == [s[0]] + s[1..];
      [s[0]] + InsertByTotal(e, s[1..])
    else [e] + s
  }

  /** An entry whose total is at least the head's may be put in front. */
  lemma ConsOrdered(x: (string, real), s: seq<(string, real)>)
    requires NonIncreasing(s)
    requires s != [] ==> x.1 >= s[0].1
    ensures NonIncreasing([x] + s)
  {
    var r := [x] + s;
    forall i, j | 0 <= i < j < |r|
      ensures r[i].1 >= r[j].1
    {
      assert r[j] == s[j - 1];
      if i > 0 {
        assert r[i] == s[i - 1];
      }
    }
  }

  /** Inserting into a ranking keeps it ordered, and the new head is either
      the inserted entry or the old head. */
  lemma {:induction false} InsertByTotalOrdered(e: (string, real), s: seq<(string, real)>)
    requires NonIncreasing(s)
    ensures NonIncreasing(InsertByTotal(e, s))
    ensures InsertByTotal(e, s)[0] == e || (s != [] && InsertByTotal(e, s)[0] == s[0])
  {
    if s == [] {
    } else if s[0].1 >= e.1 {
      assert NonIncreasing(s[1..]);
      InsertByTotalOrdered(e, s[1..]);
      ConsOrdered(s[0], InsertByTotal(e, s[1..]));
    } else {
      ConsOrdered(e, s);
    }
  }

  /** `.sort((a, b) => b[1] - a[1])`: the entries by non-increasing total. */
  function SortByTotal(s: seq<(string, real)>): (r: seq<(string, real)>)
    ensures NonIncreasing(r)
    ensures multiset(r) == multiset(s)
  {
    if s == [] then []
    else
      var sorted := SortByTotal(s[..|s| - 1]);
      InsertByTotalOrdered(s[|s| - 1], sorted);
      assert s == s[..|s| - 1] + [s[|s| - 1]];
      InsertByTotal(s[|s| - 1], sorted)
  }

  /** The sorted totals of `/calculate`. */
  method Rank(totals: map<string, real>) returns (ranking: seq<(string, real)>)
    ensures IsRanking(ranking, totals)
  {
    var entries := EntriesOf(totals);
    ranking := SortByTotal(entries);
  }

  /** `/calculate` after the active pack's vote rows have been fetched: with
      no rows it stops with "no votes"; otherwise it groups, weighs and
      ranks them. */
  method Calculate(rows: seq<Row>, log2: nat -> real) returns (result: Aggregate)
    requires Log2Positive(log2)
    ensures result.NoVotes? <==> rows == []
    ensures result.Report? ==>
      && result.contributions == Contributions(Group(rows), log2)
      && IsRanking(result.ranking, TotalsOf(result.contributions, VoterOrder(rows)))
  {
    if |rows| == 0 {
      return NoVotes;
    }
    var votes, voters := GroupVotes(rows);
    var totals, contributions := Weigh(votes, voters, log2);
    var ranking := Rank(totals);
    result := Report(ranking, contributions);
  }

  /** Row `r` is counted for voter `v` and title `t`. */
  predicate RowFor(r: Row, v: string, t: string)
  {
    VoterKey(r) == v && r.title == t
  }

  /** A last row that is not for voter `v` and title `t` leaves that entry
      of the grouping as the earlier rows made it. */
  lemma GroupOtherRow(rows: seq<Row>, v: string, t: string)
    requires rows != [] && !RowFor(rows[|rows| - 1], v, t)
    ensures var g, h := Group(rows[..|rows| - 1]), Group(rows);
      && ((v in h && t in h[v]) <==> (v in g && t in g[v]))
      && (v in g && t in g[v] ==> h[v][t] == g[v][t])
  {
  }

  /** The grouping holds exactly the (voter, title) pairs that occur in the
      rows. */
  lemma {:induction false} GroupHasPair(rows: seq<Row>, v: string, t: string)
    ensures (v in Group(rows) && t in Group(rows)[v]) <==>
      exists i :: 0 <= i < |rows| && RowFor(rows[i], v, t)
    decreases |rows|
  {
    if rows != [] {
      var n := |rows| - 1;
      var prefix := rows[..n];
      GroupHasPair(prefix, v, t);
      if RowFor(rows[n], v, t) {
        GroupLastRow(rows);
      } else {
        GroupOtherRow(rows, v, t);
        OccursBeforeLast(rows, prefix, v, t);
      }
    }
  }

  /** The last row's (voter, title) pair is in the grouping. */
  lemma GroupLastRow(rows: seq<Row>)
    requires rows != []
    ensures var r := rows[|rows| - 1]; VoterKey(r) in Group(rows) && r.title in Group(rows)[VoterKey(r)]
  {
  }

  /** When the last row is not for `v` and `t`, a row for them occurs in the
      rows exactly when one occurs before the last. */
  lemma OccursBeforeLast(rows: seq<Row>, prefix: seq<Row>, v: string, t: string)
    requires rows != [] && prefix == rows[..|rows| - 1] && !RowFor(rows[|rows| - 1], v, t)
    ensures (exists i :: 0 <= i < |rows| && RowFor(rows[i], v, t)) <==>
      exists i :: 0 <= i < |prefix| && RowFor(prefix[i], v, t)
  {
    if exists i :: 0 <= i < |rows| && RowFor(rows[i], v, t) {
      var i :| 0 <= i < |rows| && RowFor(rows[i], v, t);
      assert prefix[i] == rows[i];
    }
  }

  /** Row `i` is the last row counted for voter `v` and title `t`. */
  predicate LastRowFor(rows: seq<Row>, i: int, v: string, t: string)
  {
    && 0 <= i < |rows| && RowFor(rows[i], v, t)
    && forall j :: i < j < |rows| ==> !RowFor(rows[j], v, t)
  }

  /** Each (voter, title) pair of the grouping holds the score of the last
      row for that pair: a later row overwrites an earlier one. */
  lemma {:induction false} GroupLastRowWins(rows: seq<Row>, i: nat, v: string, t: string)
    requires LastRowFor(rows, i, v, t)
    ensures v in Group(rows) && t in Group(rows)[v] && Group(rows)[v][t] == rows[i].score
    decreases |rows|
  {
    var n := |rows| - 1;
    if i < n {
      var prefix := rows[..n];
      assert !RowFor(rows[n], v, t);
      assert LastRowFor(prefix, i, v, t);
      GroupLastRowWins(prefix, i, v, t);
      GroupOtherRow(rows, v, t);
    }
  }

  /** Voters are told apart by their stored name, not by their Telegram id:
      the rows of two different users registered under the same name are
      pooled under one voter, so all their titles share one divisor, and for
      a title both rated only the later row's score is kept. */
  lemma NamesakesMerged(rows: seq<Row>, i: nat, j: nat)
    requires i < j < |rows|
    requires rows[i].telegramId != rows[j].telegramId
    requires rows[i].username == rows[j].username != ""
    ensures VoterKey(rows[i]) == VoterKey(rows[j])
    ensures var g, v := Group(rows), VoterKey(rows[i]);
      v in g && rows[i].title in g[v] && rows[j].title in g[v]
    ensures var g, v, t := Group(rows), VoterKey(rows[i]), rows[j].title;
      rows[i].title == t && LastRowFor(rows, j, v, t) ==> g[v][t] == rows[j].score
  {
    var v := VoterKey(rows[i]);
    assert RowFor(rows[i], v, rows[i].title);
    GroupHasPair(rows, v, rows[i].title);
    assert RowFor(rows[j], v, rows[j].title);
    GroupHasPair(rows, v, rows[j].title);
    if LastRowFor(rows, j, v, rows[j].title) {
      GroupLastRowWins(rows, j, v, rows[j].title);
    }
  }

  /** The titles of the totals are those rated by at least one of the
      voters visited. */
  lemma {:induction false} TitlesOfRated(c: Grouped, vs: seq<string>, n: nat, t: string)
    requires n <= |vs|
    ensures t in TitlesOf(c, vs, n) <==> exists i :: 0 <= i < n && vs[i] in c && t in c[vs[i]]
  {
    if n != 0 {
      TitlesOfRated(c, vs, n - 1, t);
    }
  }

  /** `s` holds the value `s[i]` at least twice when it recurs at `j`. */
  lemma CountedTwice<T>(s: seq<T>, i: nat, j: nat)
    requires i < j < |s| && s[i] == s[j]
    ensures multiset(s)[s[i]] >= 2
  {
    assert s == s[..j] + s[j..];
    assert s[i] in multiset(s[..j]);
    assert s[j] in multiset(s[j..]);
  }

  /** A ranking lists every title of the totals exactly once, with its
      total. */
  lemma RankingEntries(ranking: seq<(string, real)>, totals: map<string, real>)
    requires IsRanking(ranking, totals)
    ensures forall i :: 0 <= i < |ranking| ==> ranking[i].0 in totals && ranking[i].1 == totals[ranking[i].0]
    ensures forall i, j :: 0 <= i < j < |ranking| ==> ranking[i].0 != ranking[j].0
    ensures forall t :: t in totals ==> exists i :: 0 <= i < |ranking| && ranking[i].0 == t
  {
    forall i | 0 <= i < |ranking|
      ensures ranking[i].0 in totals && ranking[i].1 == totals[ranking[i].0]
    {
      assert ranking[i] in multiset(ranking);
      assert ranking[i] in EntrySet(totals);
    }
    forall i, j | 0 <= i < j < |ranking|
      ensures ranking[i].0 != ranking[j].0
    {
      if ranking[i] == ranking[j] {
        CountedTwice(ranking, i, j);
        assert false;
      }
    }
    forall t | t in totals
      ensures exists i :: 0 <= i < |ranking| && ranking[i].0 == t
    {
      assert (t, totals[t]) in EntrySet(totals);
      assert (t, totals[t]) in multiset(ranking);
      var i :| 0 <= i < |ranking| && ranking[i] == (t, totals[t]);
    }
  }

  /** The head of a ranking is a title with the highest total, and a
      ranking is empty exactly when there are no totals. */
  lemma RankingTop(ranking: seq<(string, real)>, totals: map<string, real>)
    requires IsRanking(ranking, totals)
    ensures ranking == [] <==> totals == map[]
    ensures ranking != [] ==> forall t :: t in totals ==> totals[t] <= ranking[0].1
  {
    RankingEntries(ranking, totals);
    if ranking != [] {
      assert ranking[0].0 in totals;
    }
    if totals != map[] {
      var t :| t in totals;
    }
  }

  /** Damping never raises a score: with `log2(numVotes + 1)` at least 1,
      as it is from one rating on, each damped score of a valid ballot lies
      between 0 and the score itself, title for title. */
  lemma WeightsAtMostScores(ratings: Ratings, log2: nat -> real)
    requires Log2Positive(log2) && |ratings| >= 1
    requires log2(|ratings| + 1) >= 1.0
    requires forall t :: t in ratings ==> 0.0 <= ratings[t]
    ensures Weights(ratings, log2).Keys == ratings.Keys
    ensures forall t :: t in ratings ==> 0.0 <= Weights(ratings, log2)[t] <= ratings[t]
  {
    var d := log2(|ratings| + 1);
    forall t | t in ratings
      ensures 0.0 <= ratings[t] / d <= ratings[t]
    {
      assert ratings[t] / d * d == ratings[t];
      assert ratings[t] <= ratings[t] * d;
    }
  }

  /** A voter who rated a single movie counts in full: the divisor is
      `log2(2)`, which is 1. */
  lemma SingleRatingUndamped(ratings: Ratings, log2: nat -> real)
    requires Log2Positive(log2) && |ratings| == 1 && log2(2) == 1.0
    ensures Weights(ratings, log2) == ratings
  {
  }
}
