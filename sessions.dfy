/** The module-level `userVoteState` map of the bot: for each Telegram user,
    the movie they tapped and have not yet scored. It lives in memory only. */
module Sessions {
  import opened Common

  /** The value stored for a user: `{movieId, movieTitle, packId}`. */
  datatype Pending = Pending(movieId: nat, movieTitle: string, packId: nat)

  class SessionTracker {
    /** Telegram user id to pending selection. */
    var pending: map<nat, Pending>

    constructor ()
      ensures pending == map[]
    {
      pending := map[];
    }

    /** `userVoteState.set(userId, ...)`: the last selection wins and the
        entries of other users are untouched. */
    method Select(user: nat, p: Pending)
      modifies this
      ensures pending == old(pending)[user := p]
      ensures user in pending && pending[user] == p
      ensures forall u :: u != user ==> (u in pending <==> u in old(pending)) && (u in pending ==> pending[u] == old(pending)[u])
    {
      pending := pending[user := p];
    }

    /** `userVoteState.get(userId)`: the user's pending selection, if any. */
    method Get(user: nat) returns (r: Option<Pending>)
      ensures r.None? <==> user !in pending
      ensures r.Some? ==> user in pending && pending[user] == r.value
    {
      r := if user in pending then Some(pending[user]) else None;
    }

    /** `userVoteState.delete(userId)`: only that user's entry goes. */
    method Delete(user: nat)
      modifies this
      ensures pending == old(pending) - {user}
      ensures user !in pending
      ensures forall u :: u != user ==> (u in pending <==> u in old(pending)) && (u in pending ==> pending[u] == old(pending)[u])
    {
      pending := pending - {user};
    }
  }
}
