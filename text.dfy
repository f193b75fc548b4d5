/** The string handling the handlers rely on: splitting a command message on
    single spaces and joining the pieces back (`text.split(" ")`,
    `args.join(" ")`), lower-casing for the title lookups of the SQL
    `LOWER(...)` comparisons, and the decimal rendering of a numeric
    Telegram id (`telegram_id.toString()`). */
module Text {
  import opened Common

  /** `s.split(" ")`: the pieces between single spaces. Two spaces in a row
      give an empty piece, and there is always at least one piece. */
  function Split(s: string): (parts: seq<string>)
    ensures |parts| >= 1
    ensures forall i :: 0 <= i < |parts| ==> ' ' !in parts[i]
    decreases |s|
  {
    if s == [] then [""]
    else
      var rest := Split(s[1..]);
      if s[0] == ' ' then [""] + rest
      else [[s[0]] + rest[0]] + rest[1..]
  }

  /** `parts.join(" ")`: the pieces with one space between neighbours; the
      first piece is where the text starts. */
  function Join(parts: seq<string>): (r: string)
    ensures |parts| >= 1 ==> parts[0] <= r
    decreases |parts|
  {
    if parts == [] then ""
    else if |parts| == 1 then parts[0]
    else parts[0] + " " + Join(parts[1..])
  }

  /** Joining the pieces of a split gives back the original text. */
  lemma {:induction false} JoinSplit(s: string)
    ensures Join(Split(s)) == s
    decreases |s|
  {
    if s != [] {
      var rest := Split(s[1..]);
      JoinSplit(s[1..]);
      if s[0] == ' ' {
        assert Join([""] + rest) == "" + " " + Join(rest);
      } else if |rest| == 1 {
        assert Join([[s[0]] + rest[0]] + rest[1..]) == [s[0]] + rest[0];
      } else {
        var parts := [[s[0]] + rest[0]] + rest[1..];
        assert parts[1..] == rest[1..];
        assert Join(rest) == rest[0] + " " + Join(rest[1..]);
        assert Join(parts) == [s[0]] + rest[0] + " " + Join(rest[1..]);
      }
    }
  }

  /** The first piece of a split is the text up to its first space, or the
      whole text when it has none. */
  lemma {:induction false} FirstWord(s: string)
    ensures |Split(s)[0]| <= |s| && Split(s)[0] == s[..|Split(s)[0]|]
    ensures |Split(s)[0]| == |s| || s[|Split(s)[0]|] == ' '
    decreases |s|
  {
    if s != [] && s[0] != ' ' {
      FirstWord(s[1..]);
      var w := Split(s[1..])[0];
      assert Split(s)[0] == [s[0]] + w;
      assert s == [s[0]] + s[1..];
    }
  }

  /** A text without a space splits into itself alone. */
  lemma {:induction false} SplitNoSpace(s: string)
    requires ' ' !in s
    ensures Split(s) == [s]
    decreases |s|
  {
    if s != [] {
      assert ' ' !in s[1..] by { assert forall i :: 0 <= i < |s[1..]| ==> s[1..][i] == s[i + 1]; }
      SplitNoSpace(s[1..]);
      assert [s[0]] + s[1..] == s;
    }
  }

  /** A split has a single piece exactly when the text holds no space. */
  lemma {:induction false} SplitSingle(s: string)
    ensures |Split(s)| == 1 <==> ' ' !in s
    decreases |s|
  {
    if ' ' !in s {
      SplitNoSpace(s);
    } else if s != [] && s[0] != ' ' {
      SplitSingle(s[1..]);
    }
  }

  /** Splitting `a + " " + b`, where `a` holds no space, yields `a` followed
      by the pieces of `b`. */
  lemma {:induction false} SplitAtSpace(a: string, b: string)
    requires ' ' !in a
    ensures Split(a + " " + b) == [a] + Split(b)
    decreases |a|
  {
    if a == [] {
      assert ("" + " " + b)[1..] == b;
    } else {
      assert ' ' !in a[1..] by { assert forall i :: 0 <= i < |a[1..]| ==> a[1..][i] == a[i + 1]; }
      assert (a + " " + b)[1..] == a[1..] + " " + b;
      SplitAtSpace(a[1..], b);
      assert [a[0]] + a[1..] == a;
    }
  }

  /** The converse round trip: pieces without spaces survive a join followed
      by a split. */
  lemma {:induction false} SplitJoin(parts: seq<string>)
    requires |parts| >= 1
    requires forall i :: 0 <= i < |parts| ==> ' ' !in parts[i]
    ensures Split(Join(parts)) == parts
    decreases |parts|
  {
    if |parts| == 1 {
      SplitNoSpace(parts[0]);
    } else {
      SplitJoin(parts[1..]);
      SplitAtSpace(parts[0], Join(parts[1..]));
      assert [parts[0]] + parts[1..] == parts;
    }
  }

  /** Joining one more piece appends a space and that piece. */
  lemma {:induction false} JoinSnoc(parts: seq<string>, last: string)
    requires |parts| >= 1
    ensures Join(parts + [last]) == Join(parts) + " " + last
    decreases |parts|
  {
    if |parts| == 1 {
      assert (parts + [last])[1..] == [last];
    } else {
      assert (parts + [last])[1..] == parts[1..] + [last];
      JoinSnoc(parts[1..], last);
    }
  }

  /** `text.split(" ").slice(1)`: the words after the command word. There
      are none exactly when the text holds no space; otherwise they are the
      rest of the text after the first word and its space. */
  function CommandArgs(text: string): (args: seq<string>)
    ensures args == [] <==> ' ' !in text
    ensures forall i :: 0 <= i < |args| ==> ' ' !in args[i]
    ensures args != [] ==> text == Split(text)[0] + " " + Join(args)
  {
    var parts := Split(text);
    SplitSingle(text);
    JoinSplit(text);
    assert |parts| > 1 ==> parts == [parts[0]] + parts[1..];
    parts[1..]
  }

  /** The argument split of `/vote_set`: with fewer than two arguments the
      command is rejected; otherwise the last argument is the score token and
      the others, joined with spaces, are the movie title. */
  function VoteSetArgs(text: string): (r: Option<(string, string)>)
    ensures r.None? <==> |CommandArgs(text)| < 2
    ensures r.Some? ==> ' ' !in r.value.1
    ensures r.Some? ==> Join(CommandArgs(text)) == r.value.0 + " " + r.value.1
  {
    var args := CommandArgs(text);
    if |args| < 2 then None
    else
      var title, token := Join(args[..|args| - 1]), args[|args| - 1];
      JoinSnoc(args[..|args| - 1], token);
      assert args[..|args| - 1] + [token] == args;
      Some((title, token))
  }

  /** The whole `/vote_set` message is the command word, a space, the title,
      a space and the score token. */
  lemma VoteSetArgsRecompose(text: string)
    requires VoteSetArgs(text).Some?
    ensures text == Split(text)[0] + " " + VoteSetArgs(text).value.0 + " " + VoteSetArgs(text).value.1
  {
  }

  /** The argument of `/movie_delete`: absent when the message has no
      argument word, otherwise all argument words joined with spaces, which
      is the whole message after the command word and its space. */
  function MovieDeleteArgs(text: string): (r: Option<string>)
    ensures r.None? <==> ' ' !in text
    ensures r.Some? ==> text == Split(text)[0] + " " + r.value
  {
    var args := CommandArgs(text);
    if args == [] then None else Some(Join(args))
  }

  /** The capitals the database's `LOWER` folds for the scripts the bot's
      titles use: Latin capitals (ASCII and Latin-1) and Cyrillic capitals
      of the U+0400 block, `Ё` included. */
  predicate Capital(c: char)
  {
    || 'A' <= c <= 'Z'
    || ('À' <= c <= 'Þ' && c != '×')
    || 'А' <= c <= 'Я'
    || 'Ѐ' <= c <= 'Џ'
  }

  /** Lower-casing of one character: a capital becomes its small letter,
      and every other character is left as it is. */
  function LowerChar(c: char): (r: char)
    ensures !Capital(r)
    ensures !Capital(c) ==> r == c
  {
    if 'A' <= c <= 'Z' then (c as int + 32) as char
    else if 'À' <= c <= 'Þ' && c != '×' then (c as int + 32) as char
    else if 'А' <= c <= 'Я' then (c as int + 32) as char
    else if 'Ѐ' <= c <= 'Џ' then (c as int + 80) as char
    else c
  }

  /** SQL `LOWER(...)`, character by character: the same length, with no
      capital left. */
  function Lower(s: string): (r: string)
    ensures |r| == |s|
    ensures forall i :: 0 <= i < |r| ==> !Capital(r[i])
  {
    seq(|s|, i requires 0 <= i < |s| => LowerChar(s[i]))
  }

  /** Two titles match when they agree after lower-casing; matching titles
      have the same length, and every title matches itself. */
  predicate SameTitle(a: string, b: string)
    ensures SameTitle(a, b) ==> |a| == |b|
    ensures a == b ==> SameTitle(a, b)
  {
    Lower(a) == Lower(b)
  }

  /** Every Latin and Russian capital matches its small letter. */
  lemma CaseInsensitiveLetters()
    ensures forall c :: 'A' <= c <= 'Z' ==> LowerChar(c) == LowerChar((c as int + 32) as char)
    ensures forall c :: 'А' <= c <= 'Я' ==> LowerChar(c) == LowerChar((c as int + 32) as char)
    ensures LowerChar('Ё') == LowerChar('ё')
  {
  }

  /** Lower-casing twice changes nothing more: a lower-cased title matches
      itself. */
  lemma LowerIdempotent(s: string)
    ensures Lower(Lower(s)) == Lower(s)
    ensures SameTitle(Lower(s), s)
  {
    forall i | 0 <= i < |s|
      ensures LowerChar(LowerChar(s[i])) == LowerChar(s[i])
    {
    }
  }

  /** A Russian title typed in lower case finds the capitalised one. */
  lemma CyrillicTitleMatches()
    ensures SameTitle("Терминатор", "терминатор")
    ensures SameTitle("Ёлки", "ёлки")
  {
  }

  /** The character of one decimal digit. */
  function DigitChar(d: nat): char
    requires d < 10
  {
    ('0' as int + d) as char
  }

  /** `n.toString()` for a non-negative integer: its decimal digits. */
  function DecimalString(n: nat): (s: string)
    ensures |s| >= 1
    ensures forall i :: 0 <= i < |s| ==> '0' <= s[i] <= '9'
    decreases n
  {
    if n < 10 then [DigitChar(n)] else DecimalString(n / 10) + [DigitChar(n % 10)]
  }

  /** The number a string of decimal digits denotes. */
  function DecimalValue(s: string): nat
    requires forall i :: 0 <= i < |s| ==> '0' <= s[i] <= '9'
    decreases |s|
  {
    if s == [] then 0
    else 10 * DecimalValue(s[..|s| - 1]) + (s[|s| - 1] as int - '0' as int)
  }

  /** Reading the rendered digits back gives the number. */
  lemma {:induction false} DecimalRoundTrip(n: nat)
    ensures DecimalValue(DecimalString(n)) == n
    decreases n
  {
    if n >= 10 {
      DecimalRoundTrip(n / 10);
      var s := DecimalString(n);
      assert s[..|s| - 1] == DecimalString(n / 10);
    }
  }

  /** Two different ids never render to the same text. */
  lemma DecimalStringInjective(a: nat, b: nat)
    requires DecimalString(a) == DecimalString(b)
    ensures a == b
  {
    DecimalRoundTrip(a);
    DecimalRoundTrip(b);
  }
}
