/**
 * `shlex.split(s)` as the console and `State.cities` call it: POSIX mode, no comment characters,
 * words separated by blanks, with single quotes, double quotes and backslash escapes.
 */
module Shlex {
  import opened Outcomes
  import opened Texts

  /** The separators of `shlex`: space, tab, carriage return and newline. */
  predicate IsBlank(c: char)
  {
    c == ' ' || c == '\t' || c == '\r' || c == '\n'
  }

  predicate IsQuote(c: char)
  {
    c == '\'' || c == '"'
  }

  /** A character that stands for itself wherever it occurs outside quotes. */
  predicate Bare(c: char)
  {
    !IsBlank(c) && !IsQuote(c) && c != '\\'
  }

  /** A word that splits back to itself: not empty, and made of bare characters only. */
  predicate BareWord(w: string)
  {
    w != [] && forall i :: 0 <= i < |w| ==> Bare(w[i])
  }

  /** Where the lexer stands between two characters. */
  datatype Mode =
    | Between                      // no word open
    | InWord                       // a word is open, outside quotes
    | InQuote(q: char)             // inside a part quoted with `q`
    | AfterEscape(inDouble: bool)  // just read a backslash, inside double quotes or not

  /** The lexer between two characters: where it stands, the open word and the words finished. */
  datatype Lexer = Lexer(mode: Mode, tok: string, words: seq<string>)

  /**
   * One character. A blank finishes the open word, which may be empty when it was quoted; inside
   * double quotes a backslash escapes only a double quote or a backslash and is kept before
   * anything else; inside single quotes nothing is special but the closing quote.
   */
  function Step(l: Lexer, c: char): (n: Lexer)
    ensures n.mode == Between ==> n.tok == ""
  {
    var Lexer(mode, tok, words) := l;
    match mode
    case Between =>
      if IsBlank(c) then Lexer(Between, "", words)
      else if c == '\\' then Lexer(AfterEscape(false), "", words)
      else if IsQuote(c) then Lexer(InQuote(c), "", words)
      else Lexer(InWord, [c], words)
    case InWord =>
      if IsBlank(c) then Lexer(Between, "", words + [tok])
      else if IsQuote(c) then Lexer(InQuote(c), tok, words)
      else if c == '\\' then Lexer(AfterEscape(false), tok, words)
      else Lexer(InWord, tok + [c], words)
    case InQuote(q) =>
      if c == q then Lexer(InWord, tok, words)
      else if c == '\\' && q == '"' then Lexer(AfterEscape(true), tok, words)
      else Lexer(InQuote(q), tok + [c], words)
    case AfterEscape(inDouble) =>
      if !inDouble then Lexer(InWord, tok + [c], words)
      else if c == '\\' || c == '"' then Lexer(InQuote('"'), tok + [c], words)
      else Lexer(InQuote('"'), tok + ['\\', c], words)
  }

  /** The end of the text: it finishes an open word, and inside quotes or after a backslash it raises. */
  function Finish(l: Lexer): (r: Result<seq<string>>)
    ensures r.Err? <==> l.mode.InQuote? || l.mode.AfterEscape?
    ensures r.Err? ==> r.error == ValueError
    ensures l.mode == Between ==> r == Ok(l.words)
    ensures l.mode == InWord ==> r == Ok(l.words + [l.tok])
  {
    match l.mode
    case Between => Ok(l.words)
    case InWord => Ok(l.words + [l.tok])
    case InQuote(_) => Err(ValueError)
    case AfterEscape(_) => Err(ValueError)
  }

  /** The lexer run over `s` from position `i` on. */
  function Lex(s: string, i: nat, l: Lexer): (r: Result<seq<string>>)
    requires i <= |s|
    ensures r.Err? ==> r.error == ValueError
    decreases |s| - i
  {
    if i == |s| then Finish(l) else Lex(s, i + 1, Step(l, s[i]))
  }

  /** `shlex.split(s)`: the words of `s`, or the `ValueError` it raises. */
  function Split(s: string): Result<seq<string>>
  {
    Lex(s, 0, Lexer(Between, "", []))
  }

  /** A run of bare characters extends the open word and nothing else. */
  lemma {:induction false} ReadBare(s: string, i: nat, j: nat, tok: string, words: seq<string>)
    requires i <= j <= |s|
    requires forall k :: i <= k < j ==> Bare(s[k])
    ensures Lex(s, i, Lexer(InWord, tok, words)) == Lex(s, j, Lexer(InWord, tok + s[i..j], words))
    decreases j - i
  {
    if i < j {
      ReadBare(s, i + 1, j, tok + [s[i]], words);
      assert tok + [s[i]] + s[i + 1..j] == tok + s[i..j];
    } else {
      assert tok + s[i..j] == tok;
    }
  }

  /** Reading bare words joined by single spaces finishes exactly those words. */
  lemma {:induction false} LexJoined(s: string, i: nat, ws: seq<string>, words: seq<string>)
    requires i <= |s| && s[i..] == Join(ws, " ")
    requires forall k :: 0 <= k < |ws| ==> BareWord(ws[k])
    ensures Lex(s, i, Lexer(Between, "", words)) == Ok(words + ws)
    decreases ws
  {
    if ws == [] {
      assert |s[i..]| == 0;
      assert words + ws == words;
    } else {
      var w := ws[0];
      var e := i + |w|;
      assert s[i..e] == w;
      assert Bare(w[0]) && s[i] == w[0];
      assert Lex(s, i, Lexer(Between, "", words)) == Lex(s, i + 1, Lexer(InWord, [w[0]], words));
      ReadBare(s, i + 1, e, [w[0]], words);
      assert [w[0]] + s[i + 1..e] == w;
      if |ws| == 1 {
        assert ws == [w];
      } else {
        assert s[e] == ' ';
        assert s[e + 1..] == Join(ws[1..], " ");
        LexJoined(s, e + 1, ws[1..], words + [w]);
        assert words + [w] + ws[1..] == words + ws;
      }
    }
  }

  /** Splitting bare words joined by spaces gives the words back. */
  lemma SplitJoined(ws: seq<string>)
    requires forall k :: 0 <= k < |ws| ==> BareWord(ws[k])
    ensures Split(Join(ws, " ")) == Ok(ws)
  {
    var s := Join(ws, " ");
    assert s[0..] == s;
    LexJoined(s, 0, ws, []);
    assert [] + ws == ws;
  }

  /** Text made of blanks only has no words. */
  lemma {:induction false} SplitBlank(s: string, i: nat)
    requires i <= |s| && forall k :: i <= k < |s| ==> IsBlank(s[k])
    ensures Lex(s, i, Lexer(Between, "", [])) == Ok([])
    decreases |s| - i
  {
    if i < |s| {
      SplitBlank(s, i + 1);
    }
  }

  /** A quote that is never closed raises `ValueError`, whatever came before it. */
  lemma {:induction false} UnclosedQuote(s: string, i: nat, q: char, tok: string, words: seq<string>)
    requires IsQuote(q) && i <= |s|
    requires forall k :: i <= k < |s| ==> s[k] != q && s[k] != '\\'
    ensures Lex(s, i, Lexer(InQuote(q), tok, words)) == Err(ValueError)
    decreases |s| - i
  {
    if i < |s| {
      UnclosedQuote(s, i + 1, q, tok + [s[i]], words);
    }
  }

  /** Quoting a word keeps blanks inside it: `'a b'` is one word. */
  lemma QuotedWord(w: string)
    requires forall k :: 0 <= k < |w| ==> w[k] != '\''
    ensures Split("'" + w + "'") == Ok([w])
  {
    var s := "'" + w + "'";
    assert Split(s) == Lex(s, 1, Lexer(InQuote('\''), "", []));
    assert s[0] == '\'';
    ReadQuoted(s, 1, |s| - 1, '\'', "");
    assert "" + s[1..|s| - 1] == w;
    assert [] + [w] == [w];
  }

  /** Inside single quotes every character but the closing quote is taken as it is. */
  lemma {:induction false} ReadQuoted(s: string, i: nat, j: nat, q: char, tok: string)
    requires i <= j < |s| && s[j] == q && q == '\''
    requires forall k :: i <= k < j ==> s[k] != q
    ensures Lex(s, i, Lexer(InQuote(q), tok, [])) == Lex(s, j + 1, Lexer(InWord, tok + s[i..j], []))
    decreases j - i
  {
    if i < j {
      ReadQuoted(s, i + 1, j, q, tok + [s[i]]);
      assert tok + [s[i]] + s[i + 1..j] == tok + s[i..j];
    } else {
      assert tok + s[i..j] == tok;
    }
  }
}
