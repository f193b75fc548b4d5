/** How the bot dispatches a text message to its handlers. Handlers are
    tried in the order they were registered; none of the bot's handlers
    passes the message on, so the first one whose filter matches is the only
    one that runs. `bot.on("text")` matches every text message, commands
    included. */
module Routing {
  import opened Common
  import opened Text

  /** The filter a handler was registered with. */
  datatype Filter = Command(name: string) | AnyText

  /** The handlers of the bot that a text message can reach. */
  datatype Handler =
    | StartHandler | PingHandler | AddPackHandler | CalculateHandler | MovieDeleteHandler
    | AddMovieHandler | ListPacksHandler | VoteMenuHandler | TextHandler | VoteSetHandler

  /** The characters a Telegram `bot_command` entity is made of after its
      `/`: Latin letters, digits and `_`. */
  predicate CommandChar(c: char)
  {
    'a' <= c <= 'z' || 'A' <= c <= 'Z' || '0' <= c <= '9' || c == '_'
  }

  /** The length of the longest prefix of `s` made of command characters. */
  function CommandRun(s: string): (n: nat)
    ensures n <= |s|
    ensures forall i :: 0 <= i < n ==> CommandChar(s[i])
    ensures n == |s| || !CommandChar(s[n])
  {
    if s == [] || !CommandChar(s[0]) then 0
    else
      var n := CommandRun(s[1..]);
      assert forall i :: 1 <= i < n + 1 ==> s[i] == s[1..][i - 1];
      n + 1
  }

  /** The command a message starts with, as Telegram marks it and Telegraf's
      `bot.command` compares it: the command characters right after a
      leading `/`, or the empty string when the message does not start with
      `/` and a command character. The name ends at the end of the text or at
      the first other character, a space or a line break alike. */
  function CommandName(text: string): (name: string)
    ensures name != "" ==> |text| > |name| && text[..|name| + 1] == "/" + name
    ensures forall i :: 0 <= i < |name| ==> CommandChar(name[i])
    ensures name != "" ==> |text| == |name| + 1 || !CommandChar(text[|name| + 1])
    ensures name == "" <==> !(|text| >= 2 && text[0] == '/' && CommandChar(text[1]))
  {
    if |text| >= 1 && text[0] == '/' then
      var n := CommandRun(text[1..]);
      assert text[..n + 1] == [text[0]] + text[1..][..n];
      text[1..][..n]
    else ""
  }

  /** Conversely, `/name` followed by the end of the text or by any
      character that is no command character names the command `name`:
      `/calculate` followed by a line break and more text is `/calculate`. */
  lemma {:induction false} CommandNameOf(name: string, rest: string)
    requires name != [] && forall i :: 0 <= i < |name| ==> CommandChar(name[i])
    requires rest == [] || !CommandChar(rest[0])
    ensures CommandName("/" + name + rest) == name
  {
    var text := "/" + name + rest;
    assert text[1..] == name + rest;
    CommandRunOf(name, rest);
  }

  /** The command run of `name + rest` is all of `name`. */
  lemma {:induction false} CommandRunOf(name: string, rest: string)
    requires forall i :: 0 <= i < |name| ==> CommandChar(name[i])
    requires rest == [] || !CommandChar(rest[0])
    ensures CommandRun(name + rest) == |name|
    decreases |name|
  {
    if name != [] {
      assert (name + rest)[1..] == name[1..] + rest;
      CommandRunOf(name[1..], rest);
    }
  }

  /** Whether a handler registered with `f` takes `text`. */
  predicate Matches(f: Filter, text: string)
  {
    match f
    case Command(name) => CommandName(text) == name
    case AnyText => true
  }

  /** The handler that runs for `text`: the first registered one whose
      filter matches. */
  function Dispatch(chain: seq<(Filter, Handler)>, text: string): (h: Option<Handler>)
    ensures h.Some? <==> exists i :: 0 <= i < |chain| && Matches(chain[i].0, text)
    ensures h.Some? ==> exists i :: 0 <= i < |chain| && Matches(chain[i].0, text) && chain[i].1 == h.value &&
                          forall j :: 0 <= j < i ==> !Matches(chain[j].0, text)
    decreases |chain|
  {
    if chain == [] then None
    else if Matches(chain[0].0, text) then Some(chain[0].1)
    else
      var h := Dispatch(chain[1..], text);
      assert forall i :: 1 <= i < |chain| ==> chain[1..][i - 1] == chain[i];
      h
  }

  /** The registrations for text messages, in the order `bot.js` makes
      them: each handler once, and `/vote_set` after `bot.on("text")`. */
  function AsWritten(): (chain: seq<(Filter, Handler)>)
    ensures forall i, j :: 0 <= i < j < |chain| ==> chain[i].1 != chain[j].1
    ensures exists i, j :: 0 <= i < j < |chain| && chain[i].0 == AnyText && chain[j].0 == Command("vote_set")
  {
    var chain :=
      [ (Command("start"), StartHandler), (Command("PING"), PingHandler),
        (Command("addpack"), AddPackHandler), (Command("calculate"), CalculateHandler),
        (Command("movie_delete"), MovieDeleteHandler), (Command("addmovie"), AddMovieHandler),
        (Command("listpacks"), ListPacksHandler), (Command("vote"), VoteMenuHandler),
        (AnyText, TextHandler), (Command("vote_set"), VoteSetHandler) ];
    assert chain[8].0 == AnyText && chain[9].0 == Command("vote_set");
    chain
  }

  /** The same registrations, with `/vote_set` moved to just before
      `bot.on("text")` and every other handler in its place. */
  function Corrected(): (chain: seq<(Filter, Handler)>)
    ensures |chain| == |AsWritten()| == 10 && chain[..8] == AsWritten()[..8]
    ensures chain[8] == AsWritten()[9] && chain[9] == AsWritten()[8]
  {
    [ (Command("start"), StartHandler), (Command("PING"), PingHandler),
      (Command("addpack"), AddPackHandler), (Command("calculate"), CalculateHandler),
      (Command("movie_delete"), MovieDeleteHandler), (Command("addmovie"), AddMovieHandler),
      (Command("listpacks"), ListPacksHandler), (Command("vote"), VoteMenuHandler),
      (Command("vote_set"), VoteSetHandler), (AnyText, TextHandler) ]
  }

  /** The handler at `i` runs when its filter is the first that matches. */
  lemma {:induction false} FirstMatchRuns(chain: seq<(Filter, Handler)>, i: nat, text: string)
    requires i < |chain| && Matches(chain[i].0, text)
    requires forall j :: 0 <= j < i ==> !Matches(chain[j].0, text)
    ensures Dispatch(chain, text) == Some(chain[i].1)
    decreases i
  {
    if i > 0 {
      assert chain[1..][i - 1] == chain[i];
      forall j | 0 <= j < i - 1
        ensures !Matches(chain[1..][j].0, text)
      {
        assert chain[1..][j] == chain[j + 1];
      }
      FirstMatchRuns(chain[1..], i - 1, text);
    }
  }

  /** As registered, `/vote_set` never runs: every `/vote_set` message is
      taken by the text handler, which either ignores it or rejects it as a
      score. */
  lemma VoteSetShadowed(text: string)
    requires CommandName(text) == "vote_set"
    ensures Dispatch(AsWritten(), text) == Some(TextHandler)
  {
    FirstMatchRuns(AsWritten(), 8, text);
  }

  /** With `/vote_set` registered first, every `/vote_set` message reaches
      its handler. */
  lemma VoteSetReachable(text: string)
    requires CommandName(text) == "vote_set"
    ensures Dispatch(Corrected(), text) == Some(VoteSetHandler)
  {
    FirstMatchRuns(Corrected(), 8, text);
  }

  /** Moving `/vote_set` changes nothing for a message that is no command:
      it still reaches the text handler. */
  lemma PlainTextUnaffected(text: string)
    requires CommandName(text) == ""
    ensures Dispatch(Corrected(), text) == Some(TextHandler)
  {
    FirstMatchRuns(Corrected(), 9, text);
  }

  /** The callback data of the button the `/vote` menu shows for a movie. */
  function ButtonData(movieId: nat): (data: string)
    ensures |data| > 10 && data[..10] == "vote_film_"
    ensures forall i :: 10 <= i < |data| ==> '0' <= data[i] <= '9'
  {
    "vote_film_" + DecimalString(movieId)
  }

  /** The action filter `/^vote_film_(\d+)$/` and its capture read as an id:
      the data must be `vote_film_` followed by one or more ASCII digits. */
  function ParseButton(data: string): (r: Option<nat>)
    ensures r.Some? <==> |data| > 10 && data[..10] == "vote_film_" && forall i :: 10 <= i < |data| ==> '0' <= data[i] <= '9'
  {
    if |data| > 10 && data[..10] == "vote_film_" && forall i :: 10 <= i < |data| ==> '0' <= data[i] <= '9' then
      Some(DecimalValue(data[10..]))
    else None
  }

  /** Tapping a movie's button selects exactly that movie. */
  lemma ButtonRoundTrip(movieId: nat)
    ensures ParseButton(ButtonData(movieId)) == Some(movieId)
  {
    var data := ButtonData(movieId);
    assert data[..10] == "vote_film_";
    assert data[10..] == DecimalString(movieId);
    DecimalRoundTrip(movieId);
  }
}
