/** The Telegram handlers of the bot that change or read the vote ledger:
    tapping a movie button, sending a score as free text, `/vote_set`,
    `/movie_delete` and `/calculate`. Each handler is a method over the
    pending-selection tracker and the database; the message it answers with
    is a `Reply` value, and I/O failures of the database are not modelled. */
module Handlers {
  import opened Common
  import opened Scores
  import opened Text
  import opened Ledger
  import opened Sessions
  import Aggregation

  /** What a handler answers, up to wording. */
  datatype Reply =
    | Ignored             // free text from a user with no pending selection: no answer at all
    | Usage               // the command is missing arguments
    | Denied              // the user is not an admin
    | InvalidScore        // not a number in [0, 10]
    | NotRegistered       // the user never sent /start
    | NoPack              // there are no packs
    | MovieNotFound       // no such movie (by id, or by title in the active pack)
    | MovieSelected(title: string)
    | ScoreAlreadyUsed    // the user already gave this score in this pack
    | VoteUpdated
    | VoteSaved
    | MovieDeleted

  /** What `/calculate` answers: the ranking and the contributions it sends,
      and the Telegram ids it sends them to. */
  datatype CalculateReply =
    | CalculateDenied
    | CalculateNoPack
    | CalculateNoVotes
    | Results(ranking: seq<(string, real)>, contributions: Aggregation.Grouped, recipients: seq<nat>)

  /** One vote joined with its user and movie, as the `/calculate` query's
      inner joins produce it; a vote whose user or movie row is missing
      yields no row. */
  function JoinVote(v: Vote, users: seq<User>, movies: seq<Movie>): (r: Option<Aggregation.Row>)
    ensures r.Some? <==> UserById(users, v.userId).Some? && MovieById(movies, v.movieId).Some?
    ensures r.Some? ==>
      && r.value.score == v.score
      && r.value.telegramId == UserById(users, v.userId).value.telegramId
      && r.value.username == UserById(users, v.userId).value.username
      && r.value.title == MovieById(movies, v.movieId).value.title
  {
    match (UserById(users, v.userId), MovieById(movies, v.movieId))
    case (Some(u), Some(m)) => Some(Aggregation.Row(u.telegramId, u.username, m.title, v.score))
    case _ => None
  }

  /** The number of votes of the pack whose user and movie both exist. */
  function JoinableCount(votes: seq<Vote>, users: seq<User>, movies: seq<Movie>, packId: nat): nat
    decreases |votes|
  {
    if votes == [] then 0
    else
      var v := votes[|votes| - 1];
      JoinableCount(votes[..|votes| - 1], users, movies, packId)
        + (if v.packId == packId && JoinVote(v, users, movies).Some? then 1 else 0)
  }

  /** `SELECT u.telegram_id, u.username, m.title, v.score FROM votes v JOIN
      users_filmsBot u ... JOIN movies m ... WHERE v.pack_id = $1`: one row
      per vote of the pack that joins, in table order. */
  function PackRows(votes: seq<Vote>, users: seq<User>, movies: seq<Movie>, packId: nat): (rows: seq<Aggregation.Row>)
    ensures |rows| == JoinableCount(votes, users, movies, packId) <= |votes|
    ensures forall r :: r in rows <==>
      exists i :: 0 <= i < |votes| && votes[i].packId == packId && JoinVote(votes[i], users, movies) == Some(r)
    decreases |votes|
  {
    if votes == [] then []
    else
      var n := |votes| - 1;
      var rest := PackRows(votes[..n], users, movies, packId);
      var j := JoinVote(votes[n], users, movies);
      assert forall i :: 0 <= i < n ==> votes[..n][i] == votes[i];
      if votes[n].packId == packId && j.Some? then rest + [j.value] else rest
  }

  /** `[...new Set(rows.map((r) => r.telegram_id))]`: every voter's Telegram
      id once, in order of first appearance. */
  function Recipients(rows: seq<Aggregation.Row>): (ids: seq<nat>)
    ensures forall i, j :: 0 <= i < j < |ids| ==> ids[i] != ids[j]
    ensures forall id :: id in ids <==> exists r :: r in rows && r.telegramId == id
    decreases |rows|
  {
    if rows == [] then []
    else
      var n := |rows| - 1;
      var ids := Recipients(rows[..n]);
      assert forall r :: r in rows <==> r in rows[..n] || r == rows[n] by {
        assert rows == rows[..n] + [rows[n]];
      }
      if rows[n].telegramId in ids then ids else ids + [rows[n].telegramId]
  }

  /** The upsert both vote handlers run once every check has passed: the
      UPDATE of the user's existing row for the movie in the pack, or an
      INSERT. The ledger invariant survives because the duplicate-score
      check has just found no vote of the user in the pack with this score. */
  method SaveVote(db: Database, userId: nat, movieId: nat, packId: nat, score: real) returns (updated: bool)
    requires db.Valid()
    requires !HasScore(db.votes, userId, packId, score)
    modifies db
    ensures db.Valid()
    ensures db.votes == Upsert(old(db.votes), old(db.nextVoteId), userId, movieId, packId, score)
    ensures updated <==> FindVote(old(db.votes), userId, movieId, packId).Some?
    ensures db.nextVoteId == old(db.nextVoteId) + (if updated then 0 else 1)
    ensures db.packs == old(db.packs) && db.movies == old(db.movies) && db.users == old(db.users)
  {
    UpsertKeepsInvariant(db.votes, db.nextVoteId, userId, movieId, packId, score);
    var existing := FindVote(db.votes, userId, movieId, packId);
    match existing
    case Some(i) =>
      db.UpdateScore(db.votes[i].id, score);
      updated := true;
    case None =>
      db.InsertVote(userId, movieId, packId, score);
      updated := false;
  }

  /** The `vote_film_<id>` button: the movie is looked up by id and, when it
      exists, becomes the user's pending selection, replacing any earlier
      one. */
  method OnSelectMovie(sessions: SessionTracker, db: Database, telegramId: nat, movieId: nat)
    returns (reply: Reply)
    modifies sessions
    ensures MovieById(db.movies, movieId).None? ==>
      reply == MovieNotFound && sessions.pending == old(sessions.pending)
    ensures MovieById(db.movies, movieId).Some? ==>
      var m := MovieById(db.movies, movieId).value;
      && reply == MovieSelected(m.title)
      && sessions.pending == old(sessions.pending)[telegramId := Pending(movieId, m.title, m.packId)]
  {
    var found := MovieById(db.movies, movieId);
    if found.None? {
      return MovieNotFound;
    }
    var m := found.value;
    sessions.Select(telegramId, Pending(movieId, m.title, m.packId));
    reply := MovieSelected(m.title);
  }

  /** The `text` handler: free text is a score for the user's pending
      selection. With no selection it is ignored; otherwise the score is
      checked, then the user's registration, then the duplicate-score rule
      against the pack of the selected movie, and only a saved vote clears
      the selection. */
  method OnText(sessions: SessionTracker, db: Database, telegramId: nat, score: JsNumber)
    returns (reply: Reply)
    requires db.Valid()
    modifies sessions, db
    ensures db.Valid()
    ensures db.packs == old(db.packs) && db.movies == old(db.movies) && db.users == old(db.users)
    ensures telegramId !in old(sessions.pending) ==> reply == Ignored
    ensures telegramId in old(sessions.pending) && !ScoreAccepted(score) ==> reply == InvalidScore
    ensures telegramId in old(sessions.pending) && ScoreAccepted(score) ==>
      var p, u := old(sessions.pending)[telegramId], UserByTelegram(db.users, telegramId);
      && (u.None? ==> reply == NotRegistered)
      && (u.Some? && HasScore(old(db.votes), u.value.id, p.packId, score.value) ==> reply == ScoreAlreadyUsed)
      && (u.Some? && !HasScore(old(db.votes), u.value.id, p.packId, score.value) ==>
            && db.votes == Upsert(old(db.votes), old(db.nextVoteId), u.value.id, p.movieId, p.packId, score.value)
            && reply == (if FindVote(old(db.votes), u.value.id, p.movieId, p.packId).Some? then VoteUpdated else VoteSaved))
    ensures reply != VoteUpdated && reply != VoteSaved ==>
      db.votes == old(db.votes) && db.nextVoteId == old(db.nextVoteId) && sessions.pending == old(sessions.pending)
    ensures reply == VoteUpdated || reply == VoteSaved ==> sessions.pending == old(sessions.pending) - {telegramId}
    ensures reply == VoteUpdated ==> db.nextVoteId == old(db.nextVoteId)
    ensures reply == VoteSaved ==> db.nextVoteId == old(db.nextVoteId) + 1
  {
    var voteData := sessions.Get(telegramId);
    if voteData.None? {
      return Ignored;
    }
    if !ScoreAccepted(score) {
      return InvalidScore;
    }
    var user := UserByTelegram(db.users, telegramId);
    if user.None? {
      return NotRegistered;
    }
    var p, userDbId := voteData.value, user.value.id;
    if HasScore(db.votes, userDbId, p.packId, score.value) {
      return ScoreAlreadyUsed;
    }
    var updated := SaveVote(db, userDbId, p.movieId, p.packId, score.value);
    reply := if updated then VoteUpdated else VoteSaved;
    sessions.Delete(telegramId);
  }

  /** `/vote_set <title> <score>`: the last argument is the score and the
      others, joined by spaces, the title. The checks run in this order:
      argument count, score range, registration, an active pack, the title
      in the active pack, and the duplicate-score rule against the active
      pack. `number` is JavaScript's `Number(...)` on the score text. */
  method OnVoteSet(db: Database, telegramId: nat, text: string, number: string -> JsNumber)
    returns (reply: Reply)
    requires db.Valid()
    modifies db
    ensures db.Valid()
    ensures db.packs == old(db.packs) && db.movies == old(db.movies) && db.users == old(db.users)
    ensures VoteSetArgs(text).None? ==> reply == Usage
    ensures VoteSetArgs(text).Some? && !ScoreAccepted(number(VoteSetArgs(text).value.1)) ==> reply == InvalidScore
    ensures VoteSetArgs(text).Some? && ScoreAccepted(number(VoteSetArgs(text).value.1)) ==>
      var title, score := VoteSetArgs(text).value.0, number(VoteSetArgs(text).value.1).value;
      var u, pack := UserByTelegram(db.users, telegramId), ActivePack(db.packs);
      && (u.None? ==> reply == NotRegistered)
      && (u.Some? && pack.None? ==> reply == NoPack)
      && (u.Some? && pack.Some? ==>
            var m := MovieByTitle(db.movies, pack.value, title);
            && (m.None? ==> reply == MovieNotFound)
            && (m.Some? && HasScore(old(db.votes), u.value.id, pack.value, score) ==> reply == ScoreAlreadyUsed)
            && (m.Some? && !HasScore(old(db.votes), u.value.id, pack.value, score) ==>
                  && db.votes == Upsert(old(db.votes), old(db.nextVoteId), u.value.id, m.value.id, pack.value, score)
                  && reply == (if FindVote(old(db.votes), u.value.id, m.value.id, pack.value).Some? then VoteUpdated else VoteSaved)))
    ensures reply != VoteUpdated && reply != VoteSaved ==>
      db.votes == old(db.votes) && db.nextVoteId == old(db.nextVoteId)
    ensures reply == VoteUpdated ==> db.nextVoteId == old(db.nextVoteId)
    ensures reply == VoteSaved ==> db.nextVoteId == old(db.nextVoteId) + 1
  {
    var args := VoteSetArgs(text);
    if args.None? {
      return Usage;
    }
    var (movieName, scoreRaw) := args.value;
    var score := number(scoreRaw);
    if !ScoreAccepted(score) {
      return InvalidScore;
    }
    var user := UserByTelegram(db.users, telegramId);
    if user.None? {
      return NotRegistered;
    }
    var pack := ActivePack(db.packs);
    if pack.None? {
      return NoPack;
    }
    var movie := MovieByTitle(db.movies, pack.value, movieName);
    if movie.None? {
      return MovieNotFound;
    }
    var userDbId, packId := user.value.id, pack.value;
    if HasScore(db.votes, userDbId, packId, score.value) {
      return ScoreAlreadyUsed;
    }
    var updated := SaveVote(db, userDbId, movie.value.id, packId, score.value);
    reply := if updated then VoteUpdated else VoteSaved;
  }

  /** `/movie_delete <title>`: admins only. The title is searched in the
      active pack only; when found, the movie's votes are deleted first and
      then the movie itself. Every other outcome changes nothing. */
  method OnMovieDelete(db: Database, isAdmin: bool, text: string) returns (reply: Reply)
    requires db.Valid()
    modifies db
    ensures db.Valid()
    ensures db.packs == old(db.packs) && db.users == old(db.users) && db.nextVoteId == old(db.nextVoteId)
    ensures !isAdmin ==> reply == Denied
    ensures isAdmin && MovieDeleteArgs(text).None? ==> reply == Usage
    ensures isAdmin && MovieDeleteArgs(text).Some? ==>
      var pack := ActivePack(db.packs);
      && (pack.None? ==> reply == NoPack)
      && (pack.Some? ==>
            var m := MovieByTitle(old(db.movies), pack.value, MovieDeleteArgs(text).value);
            && (m.None? ==> reply == MovieNotFound)
            && (m.Some? ==>
                  && reply == MovieDeleted
                  && db.votes == RemoveMovieVotes(old(db.votes), m.value.id)
                  && db.movies == RemoveMovie(old(db.movies), m.value.id)))
    ensures reply != MovieDeleted ==> db.votes == old(db.votes) && db.movies == old(db.movies)
  {
    if !isAdmin {
      return Denied;
    }
    var args := MovieDeleteArgs(text);
    if args.None? {
      return Usage;
    }
    var pack := ActivePack(db.packs);
    if pack.None? {
      return NoPack;
    }
    var movie := MovieByTitle(db.movies, pack.value, args.value);
    if movie.None? {
      return MovieNotFound;
    }
    var movieId := movie.value.id;
    db.DeleteVotesOfMovie(movieId);
    db.DeleteMovie(movieId);
    reply := MovieDeleted;
  }

  /** `/calculate`: admins only. The votes of the active pack are joined
      with their users and movies, aggregated, and the results go to every
      user who voted in the pack. */
  method OnCalculate(db: Database, isAdmin: bool, log2: nat -> real) returns (reply: CalculateReply)
    requires db.Valid()
    requires Aggregation.Log2Positive(log2)
    ensures !isAdmin ==> reply == CalculateDenied
    ensures isAdmin && ActivePack(db.packs).None? ==> reply == CalculateNoPack
    ensures isAdmin && ActivePack(db.packs).Some? ==>
      var rows := PackRows(db.votes, db.users, db.movies, ActivePack(db.packs).value);
      && (reply == CalculateNoVotes <==> rows == [])
      && (rows != [] ==> reply.Results?)
      && (reply.Results? ==>
            && reply.contributions == Aggregation.Contributions(Aggregation.Group(rows), log2)
            && Aggregation.IsRanking(reply.ranking, Aggregation.TotalsOf(reply.contributions, Aggregation.VoterOrder(rows)))
            && reply.recipients == Recipients(rows))
  {
    if !isAdmin {
      return CalculateDenied;
    }
    var pack := ActivePack(db.packs);
    if pack.None? {
      return CalculateNoPack;
    }
    var rows := PackRows(db.votes, db.users, db.movies, pack.value);
    var result := Aggregation.Calculate(rows, log2);
    match result
    case NoVotes =>
      reply := CalculateNoVotes;
    case Report(ranking, contributions) =>
      reply := Results(ranking, contributions, Recipients(rows));
  }
}
