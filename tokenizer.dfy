/**
 * The command-line tokenizer of the curl interpreter: whitespace separation, flag tokens that stop at `=`,
 * single- and double-quoted strings with backslash escapes, and unquoted words.
 *
 * `Lex` is the specification, one token at a time from the front of the text; `Tokenize` is the
 * index-driven scanner, proved to produce `Lex` of its input.
 */
module Tokenizer {
  import opened Wrappers
  import opened Text

  predicate IsAsciiLetter(c: char) {
    'a' <= c <= 'z' || 'A' <= c <= 'Z'
  }

  predicate IsQuote(c: char) {
    c == '"' || c == '\''
  }

  /** A flag starts here: `-` followed by `-` or an ASCII letter. */
  predicate StartsFlag(s: string) {
    |s| >= 2 && s[0] == '-' && (s[1] == '-' || IsAsciiLetter(s[1]))
  }

  /** Where a flag token that has reached `k` ends: at the first whitespace or `=`, or at the end. */
  function FlagEnd(s: string, k: nat): (n: nat)
    requires k <= |s|
    ensures k <= n <= |s|
    ensures forall j :: k <= j < n ==> !IsJsSpace(s[j]) && s[j] != '='
    ensures n == |s| || IsJsSpace(s[n]) || s[n] == '='
    decreases |s| - k
  {
    if k == |s| || IsJsSpace(s[k]) || s[k] == '=' then k else FlagEnd(s, k + 1)
  }

  /** Where an unquoted word that has reached `k` ends: at the first whitespace, or at the end. */
  function WordEnd(s: string, k: nat): (n: nat)
    requires k <= |s|
    ensures k <= n <= |s|
    ensures forall j :: k <= j < n ==> !IsJsSpace(s[j])
    ensures n == |s| || IsJsSpace(s[n])
    decreases |s| - k
  {
    if k == |s| || IsJsSpace(s[k]) then k else WordEnd(s, k + 1)
  }

  /** The character a backslash escape inside quotes stands for: `\n`, `\t`, `\r` give the control
      characters, any other character (the backslash, the quote) stands for itself. */
  function Escaped(c: char): char {
    if c == 'n' then '\n' else if c == 't' then '\t' else if c == 'r' then '\r' else c
  }

  /** The text of a quoted token whose opening quote `q` has been consumed, and the input after the
      closing quote. An unterminated quote runs to the end of the input; a backslash that is the
      last character is kept as it is. */
  function Quoted(s: string, q: char): (r: (string, string))
    ensures |r.1| <= |s| && r.1 == s[|s| - |r.1|..]
    decreases |s|
  {
    if s == [] then ([], [])
    else if s[0] == '\\' && |s| >= 2 then
      var r := Quoted(s[2..], q);
      ([Escaped(s[1])] + r.0, r.1)
    else if s[0] == q then ([], s[1..])
    else
      var r := Quoted(s[1..], q);
      ([s[0]] + r.0, r.1)
  }

  /** The tokens of a command line. */
  function Lex(s: string): seq<string>
    decreases |s|
  {
    if s == [] then []
    else if IsJsSpace(s[0]) then Lex(s[1..])
    else if StartsFlag(s) then
      var n := FlagEnd(s, 1);
      [s[..n]] + Lex(s[n..])
    else if IsQuote(s[0]) then
      var r := Quoted(s[1..], s[0]);
      (if r.0 == [] then [] else [r.0]) + Lex(r.1)
    else
      var n := WordEnd(s, 1);
      [s[..n]] + Lex(s[n..])
  }

  lemma QuotedAtEscape(s: string, q: char)
    requires |s| >= 2 && s[0] == '\\'
    ensures Quoted(s, q) == ([Escaped(s[1])] + Quoted(s[2..], q).0, Quoted(s[2..], q).1)
  {
  }

  lemma QuotedAtPlain(s: string, q: char)
    requires s != [] && s[0] != q && !(s[0] == '\\' && |s| >= 2)
    ensures Quoted(s, q) == ([s[0]] + Quoted(s[1..], q).0, Quoted(s[1..], q).1)
  {
  }

  /** The same three steps of `Quoted`, at position `i` of `input`. */
  lemma QuotedEscapeAt(input: string, i: nat, q: char)
    requires i + 1 < |input| && input[i] == '\\'
    ensures Quoted(input[i..], q) == ([Escaped(input[i + 1])] + Quoted(input[i + 2..], q).0, Quoted(input[i + 2..], q).1)
  {
    assert input[i..][2..] == input[i + 2..];
    QuotedAtEscape(input[i..], q);
  }

  lemma QuotedPlainAt(input: string, i: nat, q: char)
    requires i < |input| && input[i] != q && !(input[i] == '\\' && i + 1 < |input|)
    ensures Quoted(input[i..], q) == ([input[i]] + Quoted(input[i + 1..], q).0, Quoted(input[i + 1..], q).1)
  {
    assert input[i..][1..] == input[i + 1..];
    QuotedAtPlain(input[i..], q);
  }

  lemma QuotedCloseAt(input: string, i: nat, q: char)
    requires i < |input| && input[i] == q && !(input[i] == '\\' && i + 1 < |input|)
    ensures Quoted(input[i..], q) == ([], input[i + 1..])
  {
    assert input[i..][1..] == input[i + 1..];
  }

  lemma LexAtSpace(s: string)
    requires s != [] && IsJsSpace(s[0])
    ensures Lex(s) == Lex(s[1..])
  {
  }

  lemma LexAtFlag(s: string)
    requires StartsFlag(s)
    ensures Lex(s) == [s[..FlagEnd(s, 1)]] + Lex(s[FlagEnd(s, 1)..])
  {
  }

  lemma LexAtQuote(s: string)
    requires s != [] && IsQuote(s[0])
    ensures var r := Quoted(s[1..], s[0]); Lex(s) == (if r.0 == [] then [] else [r.0]) + Lex(r.1)
  {
  }

  lemma LexAtWord(s: string)
    requires s != [] && !IsJsSpace(s[0]) && !StartsFlag(s) && !IsQuote(s[0])
    ensures Lex(s) == [s[..WordEnd(s, 1)]] + Lex(s[WordEnd(s, 1)..])
  {
  }

  /** The scanner: an index walks the input; whitespace is skipped, a flag is cut at whitespace or `=`,
      otherwise a quoted or unquoted token is read into a buffer that is kept when non-empty. */
  method Tokenize(input: string) returns (tokens: seq<string>)
    ensures tokens == Lex(input)
  {
    tokens := [];
    var i := 0;
    var length := |input|;
    while i < length
      invariant 0 <= i <= length
      invariant tokens + Lex(input[i..]) == Lex(input)
      decreases length - i
    {
      var ch := input[i];
      if IsJsSpace(ch) {
        LexAtSpace(input[i..]);
        assert input[i..][1..] == input[i + 1..];
        assert Lex(input[i..]) == Lex(input[i + 1..]);
        i := i + 1;
        continue;
      }
      if ch == '-' && i + 1 < length && (input[i + 1] == '-' || IsAsciiLetter(input[i + 1])) {
        var token, j := ScanFlag(input, i);
        LexAtFlag(input[i..]);
        assert input[i..][..j - i] == token && input[i..][j - i..] == input[j..];
        assert Lex(input[i..]) == [token] + Lex(input[j..]);
        AppendAssoc(tokens, [token], Lex(input[j..]));
        tokens := tokens + [token];
        i := j;
        continue;
      }
      ghost var old_tokens := tokens;
      var buf, j := ScanBuffer(input, i);
      ghost var emitted: seq<string> := if buf == [] then [] else [buf];
      ghost var later := Lex(input[j..]);
      assert Lex(input[i..]) == emitted + later;
      if buf != [] { tokens := tokens + [buf]; }
      assert tokens == old_tokens + emitted;
      AppendAssoc(old_tokens, emitted, later);
      i := j;
    }
  }

  /** Reads the flag token that starts at `i`: `-`, then everything up to whitespace or `=`. */
  method ScanFlag(input: string, i0: nat) returns (token: string, i: nat)
    requires i0 < |input| && StartsFlag(input[i0..])
    ensures i == i0 + FlagEnd(input[i0..], 1) && token == input[i0..i]
  {
    ghost var rest := input[i0..];
    var length := |input|;
    token := [input[i0]];
    i := i0 + 1;
    while i < length && !IsJsSpace(input[i]) && input[i] != '='
      invariant i0 < i <= length
      invariant token == input[i0..i]
      invariant FlagEnd(rest, i - i0) == FlagEnd(rest, 1)
      decreases length - i
    {
      token := token + [input[i]];
      i := i + 1;
    }
  }

  /** Reads a quoted string or an unquoted word starting at `i` into a buffer. */
  method ScanBuffer(input: string, i0: nat) returns (buf: string, i: nat)
    requires i0 < |input| && !IsJsSpace(input[i0]) && !StartsFlag(input[i0..])
    ensures i0 < i <= |input|
    ensures Lex(input[i0..]) == (if buf == [] then [] else [buf]) + Lex(input[i..])
  {
    ghost var rest := input[i0..];
    var ch := input[i0];
    if ch == '"' || ch == '\'' {
      buf, i := ScanQuoted(input, i0 + 1, ch);
      assert rest[1..] == input[i0 + 1..];
      LexAtQuote(rest);
    } else {
      buf, i := ScanWord(input, i0);
      assert rest[..i - i0] == buf && rest[i - i0..] == input[i..];
      LexAtWord(rest);
    }
  }

  /** Inside quotes: a backslash escapes the next character, the matching quote ends the token,
      the end of the input ends it too. */
  method ScanQuoted(input: string, i0: nat, quote: char) returns (buf: string, i: nat)
    requires i0 <= |input|
    ensures i0 <= i <= |input|
    ensures buf == Quoted(input[i0..], quote).0 && input[i..] == Quoted(input[i0..], quote).1
  {
    ghost var whole := Quoted(input[i0..], quote);
    var length := |input|;
    i := i0;
    buf := "";
    while i < length
      invariant i0 <= i <= length
      invariant buf + Quoted(input[i..], quote).0 == whole.0
      invariant Quoted(input[i..], quote).1 == whole.1
      decreases length - i
    {
      var piece, j, closed := QuotedStep(input, i, quote);
      if closed {
        assert buf + [] == buf;
        i := j;
        return;
      }
      AppendAssoc(buf, piece, Quoted(input[j..], quote).0);
      buf := buf + piece;
      i := j;
    }
    assert Quoted(input[i..], quote) == ([], []);
    assert buf + [] == buf;
  }

  /** One turn of the quoted scan at `i`: an escape pair, the closing quote, or one plain character. */
  method QuotedStep(input: string, i: nat, quote: char) returns (piece: string, j: nat, closed: bool)
    requires i < |input|
    ensures i < j <= |input|
    ensures closed ==> Quoted(input[i..], quote) == ([], input[j..])
    ensures !closed ==> Quoted(input[i..], quote) == (piece + Quoted(input[j..], quote).0, Quoted(input[j..], quote).1)
  {
    var c := input[i];
    if c == '\\' && i + 1 < |input| {
      var next := input[i + 1];
      QuotedEscapeAt(input, i, quote);
      piece, j, closed := [Escaped(next)], i + 2, false;
    } else if c == quote {
      QuotedCloseAt(input, i, quote);
      piece, j, closed := [], i + 1, true;
    } else {
      QuotedPlainAt(input, i, quote);
      piece, j, closed := [c], i + 1, false;
    }
  }

  /** Outside quotes: everything up to whitespace or the end of the input. */
  method ScanWord(input: string, i0: nat) returns (buf: string, i: nat)
    requires i0 < |input| && !IsJsSpace(input[i0])
    ensures i == i0 + WordEnd(input[i0..], 1) && buf == input[i0..i]
  {
    ghost var rest := input[i0..];
    var length := |input|;
    buf := [input[i0]];
    i := i0 + 1;
    while i < length && !IsJsSpace(input[i])
      invariant i0 < i <= length
      invariant buf == input[i0..i]
      invariant WordEnd(rest, i - i0) == WordEnd(rest, 1)
      decreases length - i
    {
      buf := buf + [input[i]];
      i := i + 1;
    }
  }

  // Properties of the tokenizer.

  /** Every token is non-empty: `""` and `''` produce no token, and every other branch reads at least one character. */
  lemma {:induction false} LexTokensNonEmpty(s: string)
    ensures forall k :: 0 <= k < |Lex(s)| ==> Lex(s)[k] != []
    decreases |s|
  {
    if s == [] {
    } else if IsJsSpace(s[0]) {
      LexTokensNonEmpty(s[1..]);
    } else if StartsFlag(s) {
      LexTokensNonEmpty(s[FlagEnd(s, 1)..]);
    } else if IsQuote(s[0]) {
      LexTokensNonEmpty(Quoted(s[1..], s[0]).1);
    } else {
      LexTokensNonEmpty(s[WordEnd(s, 1)..]);
    }
  }

  /** Whitespace before the first token is discarded. */
  lemma {:induction false} LexLeadingSpace(w: string, s: string)
    requires AllSpace(w)
    ensures Lex(w + s) == Lex(s)
    decreases |w|
  {
    if w != [] {
      assert (w + s)[1..] == w[1..] + s;
      LexAtSpace(w + s);
      LexLeadingSpace(w[1..], s);
    } else {
      assert w + s == s;
    }
  }

  lemma {:induction false} FlagEndAt(s: string, k: nat, n: nat)
    requires k <= n <= |s|
    requires forall j :: k <= j < n ==> !IsJsSpace(s[j]) && s[j] != '='
    requires n == |s| || IsJsSpace(s[n]) || s[n] == '='
    ensures FlagEnd(s, k) == n
    decreases n - k
  {
    if k < n { FlagEndAt(s, k + 1, n); }
  }

  lemma {:induction false} WordEndAt(s: string, k: nat, n: nat)
    requires k <= n <= |s|
    requires forall j :: k <= j < n ==> !IsJsSpace(s[j])
    requires n == |s| || IsJsSpace(s[n])
    ensures WordEnd(s, k) == n
    decreases n - k
  {
    if k < n { WordEndAt(s, k + 1, n); }
  }

  /** A word that holds no whitespace, does not open a quote and, if it is a flag, holds no `=`,
      is one token when whitespace or the end of the input follows it. */
  lemma LexWord(w: string, rest: string)
    requires w != [] && NoSpace(w) && !IsQuote(w[0])
    requires StartsFlag(w) ==> '=' !in w
    requires rest == [] || IsJsSpace(rest[0])
    ensures Lex(w + rest) == [w] + Lex(rest)
  {
    var s := w + rest;
    assert s[..|w|] == w && s[|w|..] == rest;
    if StartsFlag(s) {
      assert StartsFlag(w);
      FlagEndAt(s, 1, |w|);
    } else {
      WordEndAt(s, 1, |w|);
    }
  }

  /** A flag with no `=` of its own, followed directly by `=`, is a token that stops at the `=`. */
  lemma {:induction false} LexFlagThen(f: string, u: string)
    requires StartsFlag(f) && NoSpace(f) && '=' !in f && u != [] && u[0] == '='
    ensures Lex(f + u) == [f] + Lex(u)
  {
    var s := f + u;
    assert s[0] == f[0] && s[1] == f[1];
    assert forall j :: 1 <= j < |f| ==> s[j] == f[j];
    assert s[|f|] == '=';
    FlagEndAt(s, 1, |f|);
    LexAtFlag(s);
    assert s[..|f|] == f && s[|f|..] == u;
  }

  /** `--opt=val` is two tokens: the flag stops at `=`, and `=val` is an unquoted word of its own. */
  lemma {:induction false} LexFlagWithValue(f: string, v: string, rest: string)
    requires StartsFlag(f) && NoSpace(f) && '=' !in f && NoSpace(v)
    requires rest == [] || IsJsSpace(rest[0])
    ensures Lex(f + ("=" + v + rest)) == [f, "=" + v] + Lex(rest)
  {
    LexFlagThen(f, "=" + v + rest);
    EqualsWord(v);
    LexWord("=" + v, rest);
    AppendAssoc([f], ["=" + v], Lex(rest));
  }

  /** `=` followed by a word is a word that neither opens a quote nor starts a flag. */
  lemma EqualsWord(v: string)
    requires NoSpace(v)
    ensures NoSpace("=" + v) && !IsQuote(("=" + v)[0]) && !StartsFlag("=" + v)
  {
    var tail := "=" + v;
    forall j | 0 <= j < |tail| ensures !IsJsSpace(tail[j]) {
      if j > 0 { assert tail[j] == v[j - 1]; }
    }
  }

  /** How one character is written inside quotes `q`: newline, tab, carriage return, backslash
      and the quote itself take a backslash escape. */
  function EscapeChar(c: char, q: char): string {
    if c == '\n' then "\\n" else if c == '\t' then "\\t" else if c == '\r' then "\\r"
    else if c == '\\' || c == q then ['\\', c] else [c]
  }

  /** How a string is written inside quotes `q` so that the tokenizer reads it back. */
  function QuoteEscape(s: string, q: char): string {
    if s == [] then [] else EscapeChar(s[0], q) + QuoteEscape(s[1..], q)
  }

  lemma QuotedOfEscapeChar(c: char, q: char, tail: string)
    requires IsQuote(q)
    ensures Quoted(EscapeChar(c, q) + tail, q) == ([c] + Quoted(tail, q).0, Quoted(tail, q).1)
  {
    var e := EscapeChar(c, q) + tail;
    if c == '\n' || c == '\t' || c == '\r' || c == '\\' || c == q {
      assert e[0] == '\\' && Escaped(e[1]) == c && e[2..] == tail;
      QuotedAtEscape(e, q);
    } else {
      assert e[0] == c && e[1..] == tail;
      QuotedAtPlain(e, q);
    }
  }

  lemma QuotedOfEscapeStep(c: char, q: char, e: string, tail: string, t: string, r: (string, string))
    requires IsQuote(q) && Quoted(e + tail, q) == (t + r.0, r.1)
    ensures Quoted(EscapeChar(c, q) + e + tail, q) == ([c] + t + r.0, r.1)
  {
    AppendAssoc(EscapeChar(c, q), e, tail);
    QuotedOfEscapeChar(c, q, e + tail);
    AppendAssoc([c], t, r.0);
  }

  /** An escaped string read inside quotes gives back that string, followed by whatever the rest reads as. */
  lemma {:induction false} QuotedOfEscapePrefix(s: string, q: char, tail: string)
    requires IsQuote(q)
    ensures Quoted(QuoteEscape(s, q) + tail, q) == (s + Quoted(tail, q).0, Quoted(tail, q).1)
    decreases |s|
  {
    if s == [] {
      assert QuoteEscape(s, q) + tail == tail;
      assert s + Quoted(tail, q).0 == Quoted(tail, q).0;
    } else {
      var c, t := s[0], s[1..];
      var e := QuoteEscape(t, q);
      assert s == [c] + t;
      assert QuoteEscape(s, q) == EscapeChar(c, q) + e;
      QuotedOfEscapePrefix(t, q, tail);
      QuotedOfEscapeStep(c, q, e, tail, t, Quoted(tail, q));
    }
  }

  lemma QuotedOfEscape(s: string, q: char, rest: string)
    requires IsQuote(q)
    ensures Quoted(QuoteEscape(s, q) + [q] + rest, q) == (s, rest)
  {
    var e, tail := QuoteEscape(s, q), [q] + rest;
    AppendAssoc(e, [q], rest);
    QuotedOfEscapePrefix(s, q, tail);
    assert tail[1..] == rest;
    QuotedCloseAt(tail, 0, q);
    assert s + [] == s;
  }

  /** Quoting round trip: whatever follows, a string escaped and enclosed in quotes reads back as
      exactly one token holding that string (none when it is empty). */
  lemma LexQuotedRoundTrip(s: string, q: char, rest: string)
    requires IsQuote(q)
    ensures Lex([q] + QuoteEscape(s, q) + [q] + rest) == (if s == [] then [] else [s]) + Lex(rest)
  {
    var t := [q] + QuoteEscape(s, q) + [q] + rest;
    assert t[1..] == QuoteEscape(s, q) + [q] + rest;
    QuotedOfEscape(s, q, rest);
    LexAtQuote(t);
  }

  lemma {:induction false} QuotedUnterminated(body: string, q: char)
    requires q !in body && '\\' !in body
    ensures Quoted(body, q) == (body, [])
    decreases |body|
  {
    if body != [] {
      assert body[0] in body;
      assert forall c :: c in body[1..] ==> c in body;
      QuotedAtPlain(body, q);
      QuotedUnterminated(body[1..], q);
      assert body == [body[0]] + body[1..];
    }
  }

  /** An unterminated quote takes the rest of the input as its token. */
  lemma LexUnterminatedQuote(q: char, body: string)
    requires IsQuote(q) && q !in body && '\\' !in body
    ensures Lex([q] + body) == if body == [] then [] else [body]
  {
    assert ([q] + body)[1..] == body;
    QuotedUnterminated(body, q);
    LexAtQuote([q] + body);
  }

  /** An unterminated quote around an escaped string reads back that string as the last token. */
  lemma LexUnterminatedEscaped(q: char, s: string)
    requires IsQuote(q)
    ensures Lex([q] + QuoteEscape(s, q)) == if s == [] then [] else [s]
  {
    var t := [q] + QuoteEscape(s, q);
    assert t[1..] == QuoteEscape(s, q) + [];
    QuotedOfEscapePrefix(s, q, []);
    assert s + [] == s;
    LexAtQuote(t);
  }

  /** A backslash that is the last character of an unterminated quote is kept as it is. */
  lemma LexTrailingBackslash(q: char, s: string)
    requires IsQuote(q)
    ensures Lex([q] + QuoteEscape(s, q) + "\\") == [s + "\\"]
  {
    var t := [q] + QuoteEscape(s, q) + "\\";
    assert t[1..] == QuoteEscape(s, q) + "\\";
    var b: string := "\\";
    assert |b| == 1 && b[0] == '\\' && b[0] != q;
    QuotedAtPlain(b, q);
    assert b[1..] == [] && [b[0]] + [] == b;
    QuotedOfEscapePrefix(s, q, b);
    LexAtQuote(t);
  }
}
