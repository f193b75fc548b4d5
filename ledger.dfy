/** The bot's tables (`movie_packs`, `movies`, `users_filmsBot`, `votes`)
    held in memory, the queries the handlers run against them, and the
    statements that change them. */
module Ledger {
  import opened Common
  import opened Text

  /** A row of `movie_packs`. */
  datatype Pack = Pack(id: nat, name: string)

  /** A row of `movies`. */
  datatype Movie = Movie(id: nat, packId: nat, title: string)

  /** A row of `users_filmsBot`: the database id, the Telegram id and the
      display name (the empty string stands for a missing name). */
  datatype User = User(id: nat, telegramId: nat, username: string)

  /** A row of `votes`. */
  datatype Vote = Vote(id: nat, userId: nat, movieId: nat, packId: nat, score: real)

  /** `rows[0]` of a query with a WHERE clause: the position of the first row
      that satisfies the condition, if any. */
  function FirstWhere<T>(xs: seq<T>, p: T -> bool): (r: Option<nat>)
    ensures r.None? <==> forall i :: 0 <= i < |xs| ==> !p(xs[i])
    ensures r.Some? ==> r.value < |xs| && p(xs[r.value])
    ensures r.Some? ==> forall j :: 0 <= j < r.value ==> !p(xs[j])
    decreases |xs|
  {
    if xs == [] then None
    else if p(xs[0]) then Some(0)
    else
      match FirstWhere(xs[1..], p)
      case None => None
      case Some(k) => Some(k + 1)
  }

  /** `SELECT id FROM movie_packs ORDER BY id DESC LIMIT 1`: the active pack
      is the one with the highest id; there is none when there are no packs. */
  function ActivePack(packs: seq<Pack>): (r: Option<nat>)
    ensures r.None? <==> packs == []
    ensures r.Some? ==> exists i :: 0 <= i < |packs| && packs[i].id == r.value
    ensures r.Some? ==> forall i :: 0 <= i < |packs| ==> packs[i].id <= r.value
    decreases |packs|
  {
    if packs == [] then None
    else
      match ActivePack(packs[1..])
      case None => Some(packs[0].id)
      case Some(m) => Some(if packs[0].id >= m then packs[0].id else m)
  }

  /** `SELECT id FROM users_filmsBot WHERE telegram_id = $1`, first row. */
  function UserByTelegram(users: seq<User>, telegramId: nat): (r: Option<User>)
    ensures r.None? <==> forall u :: u in users ==> u.telegramId != telegramId
    ensures r.Some? ==> r.value in users && r.value.telegramId == telegramId
  {
    match FirstWhere(users, (u: User) => u.telegramId == telegramId)
    case None => None
    case Some(i) => Some(users[i])
  }

  /** The `JOIN users_filmsBot u ON v.user_id = u.id` side of a vote. */
  function UserById(users: seq<User>, id: nat): (r: Option<User>)
    ensures r.None? <==> forall u :: u in users ==> u.id != id
    ensures r.Some? ==> r.value in users && r.value.id == id
  {
    match FirstWhere(users, (u: User) => u.id == id)
    case None => None
    case Some(i) => Some(users[i])
  }

  /** `SELECT title, pack_id FROM movies WHERE id = $1`, first row; also the
      `JOIN movies m ON v.movie_id = m.id` side of a vote. */
  function MovieById(movies: seq<Movie>, id: nat): (r: Option<Movie>)
    ensures r.None? <==> forall m :: m in movies ==> m.id != id
    ensures r.Some? ==> r.value in movies && r.value.id == id
  {
    match FirstWhere(movies, (m: Movie) => m.id == id)
    case None => None
    case Some(i) => Some(movies[i])
  }

  /** `SELECT id FROM movies WHERE pack_id = $1 AND LOWER(title) = LOWER($2)`,
      first row: the earliest movie of the pack whose title matches `name`
      ignoring case. */
  function MovieByTitle(movies: seq<Movie>, packId: nat, name: string): (r: Option<Movie>)
    ensures r.None? <==> forall m :: m in movies ==> !(m.packId == packId && SameTitle(m.title, name))
    ensures r.Some? ==> r.value in movies && r.value.packId == packId && SameTitle(r.value.title, name)
    ensures r.Some? ==> exists i :: 0 <= i < |movies| && movies[i] == r.value &&
                         forall j :: 0 <= j < i ==> !(movies[j].packId == packId && SameTitle(movies[j].title, name))
  {
    match FirstWhere(movies, (m: Movie) => m.packId == packId && SameTitle(m.title, name))
    case None => None
    case Some(i) => Some(movies[i])
  }

  /** The identity the upsert looks a vote up by. */
  function VoteKey(v: Vote): (nat, nat, nat)
  {
    (v.userId, v.movieId, v.packId)
  }

  /** `SELECT id FROM votes WHERE user_id = $1 AND pack_id = $2 AND score = $3`
      returns a row: the user has already given this score in this pack, to
      any movie. */
  predicate HasScore(votes: seq<Vote>, userId: nat, packId: nat, score: real)
    ensures HasScore(votes, userId, packId, score) <==>
      exists v :: v in votes && v.userId == userId && v.packId == packId && v.score == score
  {
    exists i :: 0 <= i < |votes| && votes[i].userId == userId && votes[i].packId == packId && votes[i].score == score
  }

  /** `SELECT id FROM votes WHERE user_id = $1 AND movie_id = $2 AND pack_id = $3`,
      first row: the position of the user's vote for that movie in that pack. */
  function FindVote(votes: seq<Vote>, userId: nat, movieId: nat, packId: nat): (r: Option<nat>)
    ensures r.None? <==> forall i :: 0 <= i < |votes| ==> VoteKey(votes[i]) != (userId, movieId, packId)
    ensures r.Some? ==> r.value < |votes| && VoteKey(votes[r.value]) == (userId, movieId, packId)
  {
    FirstWhere(votes, (v: Vote) => VoteKey(v) == (userId, movieId, packId))
  }

  /** `UPDATE votes SET score = $1 WHERE id = $2`. */
  function SetScoreWhereId(votes: seq<Vote>, id: nat, score: real): (r: seq<Vote>)
    ensures |r| == |votes|
    ensures forall i :: 0 <= i < |r| ==> r[i].id == votes[i].id && VoteKey(r[i]) == VoteKey(votes[i])
    ensures forall i :: 0 <= i < |r| && votes[i].id != id ==> r[i] == votes[i]
    ensures forall i :: 0 <= i < |r| && votes[i].id == id ==> r[i].score == score
  {
    seq(|votes|, i requires 0 <= i < |votes| => if votes[i].id == id then votes[i].(score := score) else votes[i])
  }

  /** The upsert of both vote handlers: overwrite the score of the user's
      existing vote for the movie in the pack, found by its id, or insert a
      new row with the next serial id. */
  function Upsert(votes: seq<Vote>, nextId: nat, userId: nat, movieId: nat, packId: nat, score: real): (r: seq<Vote>)
    ensures |r| == |votes| + (if FindVote(votes, userId, movieId, packId).None? then 1 else 0)
    ensures forall i :: 0 <= i < |votes| ==> r[i].id == votes[i].id && VoteKey(r[i]) == VoteKey(votes[i])
    ensures FindVote(votes, userId, movieId, packId).None? ==> r[|votes|] == Vote(nextId, userId, movieId, packId, score)
  {
    match FindVote(votes, userId, movieId, packId)
    case Some(i) => SetScoreWhereId(votes, votes[i].id, score)
    case None => votes + [Vote(nextId, userId, movieId, packId, score)]
  }

  /** `DELETE FROM votes WHERE movie_id = $1`. */
  function RemoveMovieVotes(votes: seq<Vote>, movieId: nat): (r: seq<Vote>)
    ensures forall v :: v in r <==> v in votes && v.movieId != movieId
    ensures |r| <= |votes|
    decreases |votes|
  {
    if votes == [] then []
    else (if votes[0].movieId == movieId then [] else [votes[0]]) + RemoveMovieVotes(votes[1..], movieId)
  }

  /** `DELETE FROM movies WHERE id = $1`. */
  function RemoveMovie(movies: seq<Movie>, id: nat): (r: seq<Movie>)
    ensures forall m :: m in r <==> m in movies && m.id != id
    decreases |movies|
  {
    if movies == [] then []
    else (if movies[0].id == id then [] else [movies[0]]) + RemoveMovie(movies[1..], id)
  }

  /** At most one vote per (user, movie, pack). */
  ghost predicate OneRowPerKey(votes: seq<Vote>)
  {
    forall i, j :: 0 <= i < j < |votes| ==> VoteKey(votes[i]) != VoteKey(votes[j])
  }

  /** No two votes of one user in one pack share a score. */
  ghost predicate ScoresDistinct(votes: seq<Vote>)
  {
    forall i, j :: 0 <= i < j < |votes| && votes[i].userId == votes[j].userId && votes[i].packId == votes[j].packId ==>
      votes[i].score != votes[j].score
  }

  /** Vote ids are distinct and below the next serial value. */
  ghost predicate IdsFresh(votes: seq<Vote>, nextId: nat)
  {
    && (forall i :: 0 <= i < |votes| ==> votes[i].id < nextId)
    && (forall i, j :: 0 <= i < j < |votes| ==> votes[i].id != votes[j].id)
  }

  /** What the vote handlers keep true of the `votes` table. */
  ghost predicate LedgerInvariant(votes: seq<Vote>, nextId: nat)
  {
    OneRowPerKey(votes) && ScoresDistinct(votes) && IdsFresh(votes, nextId)
  }

  /** With distinct ids, updating by the id of row `i` changes row `i` only. */
  lemma SetScoreAt(votes: seq<Vote>, nextId: nat, i: nat, score: real)
    requires IdsFresh(votes, nextId) && i < |votes|
    ensures SetScoreWhereId(votes, votes[i].id, score) == votes[i := votes[i].(score := score)]
  {
    var r := SetScoreWhereId(votes, votes[i].id, score);
    forall k | 0 <= k < |votes|
      ensures r[k] == votes[i := votes[i].(score := score)][k]
    {
      if k < i { assert votes[k].id != votes[i].id; }
      if k > i { assert votes[i].id != votes[k].id; }
    }
  }

  /** An accepted submission either overwrites the score of the one existing
      row for (user, movie, pack) or adds exactly one row; afterwards that row
      carries the new score and every other row is as it was. */
  lemma UpsertWritesOneRow(votes: seq<Vote>, nextId: nat, userId: nat, movieId: nat, packId: nat, score: real)
    requires LedgerInvariant(votes, nextId)
    ensures var r := Upsert(votes, nextId, userId, movieId, packId, score);
      && |r| == |votes| + (if FindVote(votes, userId, movieId, packId).None? then 1 else 0)
      && (exists i :: 0 <= i < |r| && VoteKey(r[i]) == (userId, movieId, packId) && r[i].score == score)
      && (forall v :: VoteKey(v) != (userId, movieId, packId) ==> (v in r <==> v in votes))
  {
    var key := (userId, movieId, packId);
    var r := Upsert(votes, nextId, userId, movieId, packId, score);
    match FindVote(votes, userId, movieId, packId)
    case Some(i) =>
      SetScoreAt(votes, nextId, i, score);
      assert VoteKey(r[i]) == key && r[i].score == score;
      forall v | VoteKey(v) != key
        ensures v in r <==> v in votes
      {
        if v in r {
          var k :| 0 <= k < |r| && r[k] == v;
          assert k != i;
          assert votes[k] == v;
        }
        if v in votes {
          var k :| 0 <= k < |votes| && votes[k] == v;
          assert k != i;
          assert r[k] == v;
        }
      }
    case None =>
      assert r[|votes|] == Vote(nextId, userId, movieId, packId, score);
  }

  /** Once a score is stored, submitting the same score again in the pack is
      refused as a duplicate, whether the row was overwritten or added. */
  lemma UpsertThenDuplicate(votes: seq<Vote>, nextId: nat, userId: nat, movieId: nat, packId: nat, score: real)
    ensures HasScore(Upsert(votes, nextId, userId, movieId, packId, score), userId, packId, score)
  {
    var r := Upsert(votes, nextId, userId, movieId, packId, score);
    match FindVote(votes, userId, movieId, packId)
    case Some(i) =>
      assert r[i].userId == userId && r[i].packId == packId && r[i].score == score;
    case None =>
      assert r[|votes|].score == score;
  }

  /** An accepted submission keeps the ledger invariant: it was let through
      only because the user had no vote with this score in the pack. */
  lemma UpsertKeepsInvariant(votes: seq<Vote>, nextId: nat, userId: nat, movieId: nat, packId: nat, score: real)
    requires LedgerInvariant(votes, nextId)
    requires !HasScore(votes, userId, packId, score)
    ensures LedgerInvariant(Upsert(votes, nextId, userId, movieId, packId, score),
                            if FindVote(votes, userId, movieId, packId).Some? then nextId else nextId + 1)
  {
    var r := Upsert(votes, nextId, userId, movieId, packId, score);
    match FindVote(votes, userId, movieId, packId)
    case Some(i) =>
      SetScoreAt(votes, nextId, i, score);
      forall a, b | 0 <= a < b < |r| && r[a].userId == r[b].userId && r[a].packId == r[b].packId
        ensures r[a].score != r[b].score
      {
        if a == i { assert !(votes[b].userId == userId && votes[b].packId == packId && votes[b].score == score); }
        else if b == i { assert !(votes[a].userId == userId && votes[a].packId == packId && votes[a].score == score); }
      }
    case None =>
      var w := Vote(nextId, userId, movieId, packId, score);
      assert r == votes + [w];
      forall a, b | 0 <= a < b < |r| && r[a].userId == r[b].userId && r[a].packId == r[b].packId
        ensures r[a].score != r[b].score
      {
        if b == |votes| { assert !(votes[a].userId == userId && votes[a].packId == packId && votes[a].score == score); }
      }
      forall a, b | 0 <= a < b < |r|
        ensures VoteKey(r[a]) != VoteKey(r[b]) && r[a].id != r[b].id
      {
        if b == |votes| { assert VoteKey(votes[a]) != (userId, movieId, packId); }
      }
  }

  /** A vote that clashes with none of the rows after it can be put in
      front of them without breaking the ledger invariant. */
  lemma ConsKeepsInvariant(h: Vote, rest: seq<Vote>, nextId: nat)
    requires LedgerInvariant(rest, nextId) && h.id < nextId
    requires forall w :: w in rest ==> VoteKey(h) != VoteKey(w) && h.id != w.id
    requires forall w :: w in rest && h.userId == w.userId && h.packId == w.packId ==> h.score != w.score
    ensures LedgerInvariant([h] + rest, nextId)
  {
    var r := [h] + rest;
    forall a, b | 0 <= a < b < |r|
      ensures VoteKey(r[a]) != VoteKey(r[b]) && r[a].id != r[b].id
      ensures r[a].userId == r[b].userId && r[a].packId == r[b].packId ==> r[a].score != r[b].score
    {
      assert r[b] == rest[b - 1];
      if a > 0 { assert r[a] == rest[a - 1]; }
    }
    forall a | 0 <= a < |r| ensures r[a].id < nextId {
      if a > 0 { assert r[a] == rest[a - 1]; }
    }
  }

  /** Deleting a movie's votes keeps the ledger invariant. */
  lemma {:induction false} RemoveMovieVotesKeepsInvariant(votes: seq<Vote>, nextId: nat, movieId: nat)
    requires LedgerInvariant(votes, nextId)
    ensures LedgerInvariant(RemoveMovieVotes(votes, movieId), nextId)
    decreases |votes|
  {
    if votes != [] {
      var h, tail := votes[0], votes[1..];
      assert LedgerInvariant(tail, nextId);
      RemoveMovieVotesKeepsInvariant(tail, nextId, movieId);
      var rest := RemoveMovieVotes(tail, movieId);
      if h.movieId != movieId {
        forall w | w in rest
          ensures VoteKey(h) != VoteKey(w) && h.id != w.id
          ensures h.userId == w.userId && h.packId == w.packId ==> h.score != w.score
        {
          var k :| 0 <= k < |tail| && tail[k] == w;
          assert votes[k + 1] == w;
        }
        ConsKeepsInvariant(h, rest, nextId);
      }
    }
  }

  /** The primary key of `users_filmsBot`: no two users share an id. */
  ghost predicate UserIdsUnique(users: seq<User>)
  {
    forall i, j :: 0 <= i < j < |users| ==> users[i].id != users[j].id
  }

  /** The primary key of `movies`: no two movies share an id. */
  ghost predicate MovieIdsUnique(movies: seq<Movie>)
  {
    forall i, j :: 0 <= i < j < |movies| ==> movies[i].id != movies[j].id
  }

  /** Both primary keys the joins rely on. */
  ghost predicate KeysUnique(users: seq<User>, movies: seq<Movie>)
  {
    UserIdsUnique(users) && MovieIdsUnique(movies)
  }

  /** With unique ids the first row with an id is the only one, so a lookup
      by id finds what an SQL inner join on that id pairs a vote with. */
  lemma LookupByIdUnique(users: seq<User>, movies: seq<Movie>, u: User, m: Movie)
    requires KeysUnique(users, movies)
    ensures u in users ==> UserById(users, u.id) == Some(u)
    ensures m in movies ==> MovieById(movies, m.id) == Some(m)
  {
    if u in users {
      var i :| 0 <= i < |users| && users[i] == u;
      var k := FirstWhere(users, (x: User) => x.id == u.id).value;
      assert k == i;
    }
    if m in movies {
      var i :| 0 <= i < |movies| && movies[i] == m;
      var k := FirstWhere(movies, (x: Movie) => x.id == m.id).value;
      assert k == i;
    }
  }

  /** A movie whose id none of `rest` has can be put in front of them. */
  lemma ConsMovieIds(h: Movie, rest: seq<Movie>)
    requires MovieIdsUnique(rest)
    requires forall w :: w in rest ==> w.id != h.id
    ensures MovieIdsUnique([h] + rest)
  {
    var r := [h] + rest;
    forall i, j | 0 <= i < j < |r| ensures r[i].id != r[j].id {
      assert r[j] == rest[j - 1];
      if i > 0 { assert r[i] == rest[i - 1]; }
    }
  }

  /** Deleting a movie keeps the movie ids unique. */
  lemma {:induction false} RemoveMovieKeepsIds(movies: seq<Movie>, id: nat)
    requires MovieIdsUnique(movies)
    ensures MovieIdsUnique(RemoveMovie(movies, id))
    decreases |movies|
  {
    if movies != [] {
      var h, tail := movies[0], movies[1..];
      assert MovieIdsUnique(tail) by {
        forall i, j | 0 <= i < j < |tail| ensures tail[i].id != tail[j].id {
          assert tail[i] == movies[i + 1] && tail[j] == movies[j + 1];
        }
      }
      RemoveMovieKeepsIds(tail, id);
      var rest := RemoveMovie(tail, id);
      if h.id != id {
        forall w | w in rest ensures w.id != h.id {
          var k :| 0 <= k < |tail| && tail[k] == w;
          assert movies[k + 1] == w;
        }
        ConsMovieIds(h, rest);
      }
    }
  }

  /** The bot's database: the four tables and the serial counter of
      `votes.id`. Packs, movies and users are created by commands outside
      this model and are given to the constructor. */
  class Database {
    var packs: seq<Pack>
    var movies: seq<Movie>
    var users: seq<User>
    var votes: seq<Vote>
    var nextVoteId: nat

    /** The ledger invariant and the primary keys of users and movies. */
    ghost predicate Valid()
      reads this
    {
      LedgerInvariant(votes, nextVoteId) && KeysUnique(users, movies)
    }

    constructor (packs: seq<Pack>, movies: seq<Movie>, users: seq<User>)
      requires KeysUnique(users, movies)
      ensures Valid()
      ensures this.packs == packs && this.movies == movies && this.users == users
      ensures votes == [] && nextVoteId == 1
    {
      this.packs, this.movies, this.users := packs, movies, users;
      votes, nextVoteId := [], 1;
    }

    /** `UPDATE votes SET score = $1 WHERE id = $2`. */
    method UpdateScore(id: nat, score: real)
      modifies this
      ensures votes == SetScoreWhereId(old(votes), id, score)
      ensures packs == old(packs) && movies == old(movies) && users == old(users) && nextVoteId == old(nextVoteId)
    {
      votes := SetScoreWhereId(votes, id, score);
    }

    /** `INSERT INTO votes (user_id, movie_id, pack_id, score) VALUES (...)`. */
    method InsertVote(userId: nat, movieId: nat, packId: nat, score: real)
      modifies this
      ensures votes == old(votes) + [Vote(old(nextVoteId), userId, movieId, packId, score)]
      ensures nextVoteId == old(nextVoteId) + 1
      ensures packs == old(packs) && movies == old(movies) && users == old(users)
    {
      votes := votes + [Vote(nextVoteId, userId, movieId, packId, score)];
      nextVoteId := nextVoteId + 1;
    }

    /** `DELETE FROM votes WHERE movie_id = $1`. */
    method DeleteVotesOfMovie(movieId: nat)
      requires Valid()
      modifies this
      ensures Valid()
      ensures votes == RemoveMovieVotes(old(votes), movieId)
      ensures packs == old(packs) && movies == old(movies) && users == old(users) && nextVoteId == old(nextVoteId)
    {
      RemoveMovieVotesKeepsInvariant(votes, nextVoteId, movieId);
      votes := RemoveMovieVotes(votes, movieId);
    }

    /** `DELETE FROM movies WHERE id = $1`. */
    method DeleteMovie(id: nat)
      requires Valid()
      modifies this
      ensures Valid()
      ensures movies == RemoveMovie(old(movies), id)
      ensures packs == old(packs) && votes == old(votes) && users == old(users) && nextVoteId == old(nextVoteId)
    {
      RemoveMovieKeepsIds(movies, id);
      movies := RemoveMovie(movies, id);
    }
  }
}
