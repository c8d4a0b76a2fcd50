/**
 * The command classifier: the recursive shell splitter, the command head and the verdict.
 * `Lex` is the splitter as a function of the text and the scanner's variables; the method
 * `SplitSubcommands` is the source's loop, proved to compute it.
 */
module Classifier {
  import opened Options

  // Text.

  /** Unicode White_Space, which trim and split_whitespace go by. */
  predicate White(c: char) {
    var n := c as int;
    9 <= n <= 13 || n == 32 || n == 0x85 || n == 0xA0 || n == 0x1680 || 0x2000 <= n <= 0x200A
    || n == 0x2028 || n == 0x2029 || n == 0x202F || n == 0x205F || n == 0x3000
  }

  /** trim().is_empty() */
  predicate Blank(s: string) {
    forall i :: 0 <= i < |s| ==> White(s[i])
  }

  /** Where the parenthesis opened `depth` levels up is closed. */
  function CloseParen(s: string, depth: nat): (r: Option<nat>)
    requires depth > 0
    ensures r.Some? ==> r.value < |s| && s[r.value] == ')'
  {
    if s == "" then None
    else if s[0] == ')' && depth == 1 then Some(0)
    else
      var d := if s[0] == '(' then depth + 1 else if s[0] == ')' then depth - 1 else depth;
      Shift(CloseParen(s[1..], d), 1)
  }

  function Shift(at: Option<nat>, n: nat): Option<nat> {
    match at
    case None => None
    case Some(k) => Some(k + n)
  }

  function CloseTick(s: string): (r: Option<nat>)
    ensures r.Some? ==> r.value < |s| && s[r.value] == '`'
  {
    if s == "" then None
    else if s[0] == '`' then Some(0)
    else Shift(CloseTick(s[1..]), 1)
  }

  // The splitter.

  /** The scanner's variables: what was split off, the piece being read, and the open quotes. */
  datatype Lexer = Lexer(out: seq<string>, cur: string, single: bool, double: bool)

  const Start := Lexer([], "", false, false)

  function Push(st: Lexer, c: char): Lexer {
    st.(cur := st.cur + [c])
  }

  function Flush(st: Lexer): Lexer {
    st.(out := if Blank(st.cur) then st.out else st.out + [st.cur], cur := "")
  }

  predicate Operator(c: char) {
    c in "|;&\n<>"
  }

  /** Whether the operator c at the head of s takes the next character with it. */
  predicate Doubled(s: string)
    requires s != ""
  {
    s[0] in "|&>" && |s| > 1 && s[1] == s[0]
  }

  predicate OpensSubstitution(s: string)
    requires s != ""
  {
    s[0] == '$' && |s| > 1 && s[1] == '('
  }

  /** A substituted command: its pieces, and how many characters it took with its delimiters. */
  datatype Inner = Inner(subs: seq<string>, used: nat)

  /** The command inside `$(`...`)` at the head of s. */
  function ParenCommand(s: string): (r: Option<Inner>)
    requires |s| >= 2
    ensures r.Some? ==> 3 <= r.value.used <= |s|
    decreases |s|, 0
  {
    match CloseParen(s[2..], 1)
    case None => None
    case Some(k) =>
      match Split(s[2..2 + k])
      case None => None
      case Some(subs) => Some(Inner(subs, k + 3))
  }

  /** The command between backticks at the head of s. */
  function TickCommand(s: string): (r: Option<Inner>)
    requires s != ""
    ensures r.Some? ==> 2 <= r.value.used <= |s|
    decreases |s|, 0
  {
    match CloseTick(s[1..])
    case None => None
    case Some(k) =>
      match Split(s[1..1 + k])
      case None => None
      case Some(subs) => Some(Inner(subs, k + 2))
  }

  datatype Token = Token(st: Lexer, used: nat)

  /** One turn of the character loop: the scanner afterwards and how many characters it read. */
  function Turn(s: string, st: Lexer): (r: Option<Token>)
    requires s != ""
    ensures r.Some? ==> 1 <= r.value.used <= |s|
    decreases |s|, 1
  {
    var c := s[0];
    if c == '\'' && !st.double then Some(Token(st.(single := !st.single), 1))
    else if c == '"' && !st.single then Some(Token(st.(double := !st.double), 1))
    else if c == '\\' && !st.single then
      if |s| == 1 then None else Some(Token(Push(st, s[1]), 2))
    else if !st.single && OpensSubstitution(s) then
      match ParenCommand(s)
      case None => None
      case Some(inner) => Some(Token(Push(st.(out := st.out + inner.subs), 'x'), inner.used))
    else if c == '`' && !st.single then
      match TickCommand(s)
      case None => None
      case Some(inner) => Some(Token(st.(out := st.out + inner.subs), inner.used))
    else if (c == '(' || c == ')') && !st.single && !st.double then None
    else if Operator(c) && !st.single && !st.double then
      Some(Token(Flush(if c == '>' then Push(st, '>') else st), if Doubled(s) then 2 else 1))
    else Some(Token(Push(st, c), 1))
  }

  /** The whole loop from a given scanner; None where the source returns Err. */
  function Lex(s: string, st: Lexer): (r: Option<Lexer>)
    decreases |s|, 2
  {
    if s == "" then Some(st)
    else
      match Turn(s, st)
      case None => None
      case Some(t) => Lex(s[t.used..], t.st)
  }

  /** What the source does after the loop. */
  function Finish(st: Lexer): Option<seq<string>> {
    if st.single || st.double then None else Some(Flush(st).out)
  }

  function Split(s: string): (r: Option<seq<string>>)
    decreases |s|, 3
  {
    match Lex(s, Start)
    case None => None
    case Some(st) => Finish(st)
  }

  // Text read so far does not change what is read next.

  lemma {:induction false} CloseParenExtends(a: string, b: string, depth: nat)
    requires depth > 0 && CloseParen(a, depth).Some?
    ensures CloseParen(a + b, depth) == CloseParen(a, depth)
  {
    assert (a + b)[1..] == a[1..] + b;
    if !(a[0] == ')' && depth == 1) {
      var d := if a[0] == '(' then depth + 1 else if a[0] == ')' then depth - 1 else depth;
      CloseParenExtends(a[1..], b, d);
    }
  }

  lemma {:induction false} CloseTickExtends(a: string, b: string)
    requires CloseTick(a).Some?
    ensures CloseTick(a + b) == CloseTick(a)
  {
    assert (a + b)[1..] == a[1..] + b;
    if a[0] != '`' {
      CloseTickExtends(a[1..], b);
    }
  }

  /** The character c, read last, and the head of b make a two-character token of the splitter. */
  predicate Straddles(c: char, b: string, st: Lexer) {
    b != "" && !st.single && ((c == '$' && b[0] == '(') || (c in "|&>" && !st.double && b[0] == c))
  }

  /**
   * The joint between a and b tears `$(` or `>>` apart: the last turn over a reads one such
   * character, neither quoted nor escaped. A torn `||` or `&&` does no harm and is not counted.
   */
  predicate Torn(a: string, b: string, st: Lexer)
    decreases |a|
  {
    a != "" &&
    if |a| == 1 then Straddles(a[0], b, st) && a[0] in "$>"
    else Turn(a, st).Some? && Torn(a[Turn(a, st).value.used..], b, Turn(a, st).value.st)
  }

  /** Only a parenthesis or a `>` can be the second half. */
  lemma {:induction false} NotTorn(a: string, b: string, st: Lexer)
    requires b == "" || b[0] !in "(>"
    ensures !Torn(a, b, st)
    decreases |a|
  {
    if |a| > 1 && Turn(a, st).Some? {
      hide Turn;
      NotTorn(a[Turn(a, st).value.used..], b, Turn(a, st).value.st);
    }
  }

  lemma TurnExtends(a: string, b: string, st: Lexer)
    requires a != "" && Turn(a, st).Some? && !(|a| == 1 && Straddles(a[0], b, st))
    ensures Turn(a + b, st) == Turn(a, st)
  {
    hide Lex, Split, Flush, Push;
    var s, c := a + b, a[0];
    assert s[0] == c && (|a| > 1 ==> s[1] == a[1]);
    if !st.single && OpensSubstitution(a) {
      assert s[2..] == a[2..] + b;
      CloseParenExtends(a[2..], b, 1);
      var k := CloseParen(a[2..], 1).value;
      assert s[2..2 + k] == a[2..2 + k];
    } else if c == '`' && !st.single {
      assert s[1..] == a[1..] + b;
      CloseTickExtends(a[1..], b);
      var k := CloseTick(a[1..]).value;
      assert s[1..1 + k] == a[1..1 + k];
    }
  }

  /** With nothing in hand, a further | or & changes nothing. */
  lemma {:induction false} BarIsIdle(c: char, s: string, st: Lexer)
    requires c in ";&|\n<" && st.cur == "" && !st.single && !st.double
    ensures Lex([c] + s, st) == Lex(s, st)
  {
    var t := [c] + s;
    assert t[1..] == s;
    assert Flush(st) == st;
    if Doubled(t) {
      assert s == [c] + s[1..];
      assert t[2..] == s[1..];
      BarIsIdle(c, s[1..], st);
    }
  }

  /**
   * Scanning a joined text is scanning the second part from where the first one ended, unless the
   * joint tears `$(` or `>>` apart.
   */
  lemma {:induction false} LexComposes(a: string, b: string, st: Lexer)
    requires Lex(a, st).Some? && !Torn(a, b, st)
    ensures Lex(a + b, st) == Lex(b, Lex(a, st).value)
    decreases |a|
  {
    if a == "" {
      assert a + b == b;
    } else if |a| == 1 && Straddles(a[0], b, st) {
      BarJoint(a, b, st);
    } else {
      var t := Turn(a, st).value;
      TurnExtends(a, b, st);
      hide Turn;
      assert (a + b)[t.used..] == a[t.used..] + b;
      LexComposes(a[t.used..], b, t.st);
    }
  }

  lemma BarJoint(a: string, b: string, st: Lexer)
    requires |a| == 1 && a[0] in "|&" && Straddles(a[0], b, st)
    ensures Lex(a, st).Some? && Lex(a + b, st) == Lex(b, Lex(a, st).value)
  {
    var s := a + b;
    assert s[0] == a[0] && s[1] == b[0] && s[2..] == b[1..];
    assert Turn(a, st) == Some(Token(Flush(st), 1));
    assert Turn(s, st) == Some(Token(Flush(st), 2));
    assert Lex(a, st) == Lex(a[1..], Flush(st)) == Some(Flush(st));
    assert b == [a[0]] + b[1..];
    BarIsIdle(a[0], b[1..], Flush(st));
  }

  // What was split off earlier is only carried along.

  function Behind(p: seq<string>, st: Lexer): Lexer {
    st.(out := p + st.out)
  }

  lemma TurnCarries(s: string, p: seq<string>, st: Lexer)
    requires s != ""
    ensures Turn(s, Behind(p, st)) ==
      match Turn(s, st) case None => None case Some(t) => Some(Token(Behind(p, t.st), t.used))
  {
    hide Lex, Split, Blank;
    assert forall x: seq<string> {:trigger p + (st.out + x)} :: p + (st.out + x) == p + st.out + x;
  }

  lemma {:induction false} LexCarries(s: string, p: seq<string>, st: Lexer)
    ensures Lex(s, Behind(p, st)) ==
      match Lex(s, st) case None => None case Some(t) => Some(Behind(p, t))
    decreases |s|
  {
    if s != "" {
      TurnCarries(s, p, st);
      var t := Turn(s, st);
      if t.Some? {
        hide Turn;
        LexCarries(s[t.value.used..], p, t.value.st);
      }
    }
  }

  /** The loop only ever adds to the pieces split off. */
  lemma LexGrows(s: string, st: Lexer)
    requires Lex(s, st).Some?
    ensures st.out <= Lex(s, st).value.out
  {
    LexCarries(s, st.out, st.(out := []));
    assert Behind(st.out, st.(out := [])) == st;
  }

  lemma LexAfter(s: string, p: seq<string>)
    ensures var st := Lexer(p, "", false, false);
      (match Lex(s, st) case None => None case Some(t) => Finish(t)) ==
      (match Split(s) case None => None case Some(subs) => Some(p + subs))
  {
    LexCarries(s, p, Start);
    assert Behind(p, Start) == Lexer(p, "", false, false);
    if Lex(s, Start).Some? {
      hide Blank;
      var t := Lex(s, Start).value;
      assert p + (t.out + [t.cur]) == p + t.out + [t.cur];
    }
  }

  /**
   * Compositionality: a command that parses, then a separator, then any text, splits into the
   * pieces of the first followed by the pieces of the second, and fails exactly when the second does.
   */
  lemma JoinSplits(a: string, sep: char, b: string)
    requires Split(a).Some? && sep in ";\n|&<"
    ensures Split(a + [sep] + b) ==
      match Split(b) case None => None case Some(subs) => Some(Split(a).value + subs)
  {
    hide Turn;
    var st := Lex(a, Start).value;
    assert a + [sep] + b == a + ([sep] + b);
    NotTorn(a, [sep] + b, Start);
    LexComposes(a, [sep] + b, Start);
    SeparatorFlushes(sep, b, st);
    LexAfter(b, Flush(st).out);
    assert Flush(st) == Lexer(Flush(st).out, "", false, false);
  }

  lemma SeparatorTurn(sep: char, b: string, st: Lexer)
    requires !st.single && !st.double && sep in ";\n|&<"
    ensures Turn([sep] + b, st) == Some(Token(Flush(st), if Doubled([sep] + b) then 2 else 1))
  {
    hide Flush, Push, Split, ParenCommand, TickCommand;
  }

  lemma SeparatorFlushes(sep: char, b: string, st: Lexer)
    requires !st.single && !st.double && sep in ";\n|&<"
    ensures Lex([sep] + b, st) == Lex(b, Flush(st))
  {
    var s := [sep] + b;
    SeparatorTurn(sep, b, st);
    LexTurn(s, st);
    hide Blank, Turn, Lex;
    assert s[1..] == b;
    if Doubled(s) {
      assert b == [sep] + b[1..] && s[2..] == b[1..];
      BarIsIdle(sep, b[1..], Flush(st));
    }
  }

  /**
   * Command substitution is seen through: wherever `$(inner)` stands outside single quotes, if the
   * whole command parses then so does the inner one, and each of its pieces is among the whole's.
   */
  lemma SubstitutionIsSeen(a: string, inner: string, b: string)
    requires Lex(a, Start).Some? && !Lex(a, Start).value.single
    requires CloseParen(inner + ")", 1) == Some(|inner|)
    requires Split(a + ("$(" + inner + ")" + b)).Some?
    ensures Split(inner).Some?
    ensures forall p :: p in Split(inner).value ==> p in Split(a + ("$(" + inner + ")" + b)).value
  {
    var st := Lex(a, Start).value;
    var rest := "$(" + inner + ")" + b;
    NotTorn(a, rest, Start);
    LexComposes(a, rest, Start);
    SubstitutionTurn(inner, b, st);
    hide Turn, Blank;
    var t := Turn(rest, st).value;
    PiecesStay(rest[t.used..], t.st);
    assert forall p :: p in Split(inner).value ==> p in t.st.out;
  }

  lemma SubstitutionTurn(inner: string, b: string, st: Lexer)
    requires !st.single && CloseParen(inner + ")", 1) == Some(|inner|)
    ensures Turn("$(" + inner + ")" + b, st) ==
      match Split(inner)
      case None => None
      case Some(subs) => Some(Token(Push(st.(out := st.out + subs), 'x'), |inner| + 3))
  {
    hide Lex, Split, Push;
    var rest := "$(" + inner + ")" + b;
    assert rest[2..] == (inner + ")") + b;
    CloseParenExtends(inner + ")", b, 1);
    assert rest[2..2 + |inner|] == inner;
  }

  /** The same holds of backticks. */
  lemma TickIsSeen(a: string, inner: string, b: string)
    requires Lex(a, Start).Some? && !Lex(a, Start).value.single && '`' !in inner
    requires Split(a + ("`" + inner + "`" + b)).Some?
    ensures Split(inner).Some?
    ensures forall p :: p in Split(inner).value ==> p in Split(a + ("`" + inner + "`" + b)).value
  {
    var st := Lex(a, Start).value;
    var rest := "`" + inner + "`" + b;
    NotTorn(a, rest, Start);
    LexComposes(a, rest, Start);
    TickTurn(inner, b, st);
    hide Turn, Blank;
    var t := Turn(rest, st).value;
    PiecesStay(rest[t.used..], t.st);
  }

  lemma TickTurn(inner: string, b: string, st: Lexer)
    requires !st.single && '`' !in inner
    ensures Turn("`" + inner + "`" + b, st) ==
      match Split(inner)
      case None => None
      case Some(subs) => Some(Token(st.(out := st.out + subs), |inner| + 2))
  {
    hide Lex, Split;
    var rest := "`" + inner + "`" + b;
    assert rest[1..] == inner + ("`" + b);
    TickCloses(inner, b);
    assert rest[1..1 + |inner|] == inner;
  }

  lemma {:induction false} TickCloses(inner: string, b: string)
    requires '`' !in inner
    ensures CloseTick(inner + ("`" + b)) == Some(|inner|)
  {
    var s := inner + ("`" + b);
    if inner != "" {
      assert s[0] == inner[0] && s[1..] == inner[1..] + ("`" + b);
      TickCloses(inner[1..], b);
    }
  }

  /** A piece split off is a piece of the result, if there is one. */
  lemma PiecesStay(s: string, st: Lexer)
    requires Lex(s, st).Some? && Finish(Lex(s, st).value).Some?
    ensures forall p :: p in st.out ==> p in Finish(Lex(s, st).value).value
  {
    hide Lex;
    LexGrows(s, st);
    var end := Lex(s, st).value;
    assert st.out <= end.out <= Flush(end).out;
  }

  /** Single-quoted text is taken literally, whatever operators or substitutions it spells. */
  lemma QuotedIsLiteral(a: string, text: string, b: string)
    requires Lex(a, Start).Some? && '\'' !in text
    requires var st := Lex(a, Start).value; !st.single && !st.double
    ensures var st := Lex(a, Start).value;
      Lex(a + ("'" + text + "'" + b), Start) == Lex(b, st.(cur := st.cur + text))
  {
    var st := Lex(a, Start).value;
    var rest := "'" + text + "'" + b;
    NotTorn(a, rest, Start);
    LexComposes(a, rest, Start);
    assert rest[1..] == text + ("'" + b);
    QuotedRun(text, b, st.(single := true));
  }

  lemma {:induction false} QuotedRun(text: string, b: string, st: Lexer)
    requires '\'' !in text && st.single && !st.double
    ensures Lex(text + ("'" + b), st) == Lex(b, st.(cur := st.cur + text, single := false))
    decreases |text|
  {
    var s := text + ("'" + b);
    if text == "" {
      assert s == "'" + b && s[1..] == b;
      assert st.cur + text == st.cur;
    } else {
      assert s[0] == text[0] && s[1..] == text[1..] + ("'" + b);
      QuotedRun(text[1..], b, Push(st, text[0]));
      assert st.cur + [text[0]] + text[1..] == st.cur + text;
    }
  }

  // What is text and what is not, character by character.

  /** Text without any of the shell's own characters is copied, whatever is quoted around it. */
  lemma {:induction false} PlainText(s: string, st: Lexer)
    requires forall c :: c in s ==> c !in "'\"\\`$()|;&\n<>"
    ensures Lex(s, st) == Some(st.(cur := st.cur + s))
    decreases |s|
  {
    if s == "" {
      assert st.cur + s == st.cur;
    } else {
      assert s[0] in s;
      assert Turn(s, st) == Some(Token(Push(st, s[0]), 1));
      PlainText(s[1..], Push(st, s[0]));
      assert st.cur + [s[0]] + s[1..] == st.cur + s;
    }
  }

  lemma InkShows(s: string, c: char)
    requires c in s && '!' <= c <= '~'
    ensures !Blank(s)
  {
    var i :| 0 <= i < |s| && s[i] == c;
    assert !White(s[i]);
  }

  lemma BlanksDoNot(s: string)
    requires forall c :: c in s ==> c == ' ' || c == '\t'
    ensures Blank(s)
  {
    forall i | 0 <= i < |s| ensures White(s[i]) {
      assert s[i] in s;
    }
  }

  /** Such a text is one piece if anything in it shows, and none if it is only blanks. */
  lemma PlainCommand(s: string)
    requires forall c :: c in s ==> c !in "'\"\\`$()|;&\n<>"
    ensures (exists c :: c in s && '!' <= c <= '~') ==> Split(s) == Some([s])
    ensures (forall c :: c in s ==> c == ' ' || c == '\t') ==> Split(s) == Some([])
  {
    hide Lex, Blank, Split;
    PlainText(s, Start);
    assert Start.(cur := Start.cur + s) == Lexer([], s, false, false);
    SplitEnds(s);
    if c :| c in s && '!' <= c <= '~' {
      InkShows(s, c);
      assert Flush(Lexer([], s, false, false)).out == [s];
    }
    if forall c :: c in s ==> c == ' ' || c == '\t' {
      BlanksDoNot(s);
    }
  }

  /** Outside single quotes a backslash makes the next character text, whatever it is. */
  lemma EscapedIsText(c: char, b: string, st: Lexer)
    requires !st.single
    ensures Lex("\\" + [c] + b, st) == Lex(b, st.(cur := st.cur + [c]))
  {
    var s := "\\" + [c] + b;
    assert s[0] == '\\' && s[1] == c && s[2..] == b;
  }

  /** A backslash at the end, or a parenthesis that is neither quoted nor escaped, nor part of `$(`, is an error. */
  lemma StrayIsError(a: string, c: char, b: string)
    requires Lex(a, Start).Some? && !Lex(a, Start).value.single && !Torn(a, [c] + b, Start)
    requires (c == '\\' && b == "") || (c in "()" && !Lex(a, Start).value.double)
    ensures Split(a + ([c] + b)) == None
  {
    LexComposes(a, [c] + b, Start);
    assert ([c] + b)[0] == c && (b == "" ==> |[c] + b| == 1);
  }

  /** Double quotes make text of operators and parentheses. */
  lemma {:induction false} DoubleQuotedRun(text: string, b: string, st: Lexer)
    requires st.double && !st.single && forall c :: c in text ==> c !in "\"\\`$"
    ensures Lex(text + ("\"" + b), st) == Lex(b, st.(cur := st.cur + text, double := false))
    decreases |text|
  {
    var s := text + ("\"" + b);
    if text == "" {
      assert s == "\"" + b && s[1..] == b;
      assert st.cur + text == st.cur;
    } else {
      assert text[0] in text && s[0] == text[0] && s[1..] == text[1..] + ("\"" + b);
      assert Turn(s, st) == Some(Token(Push(st, s[0]), 1));
      DoubleQuotedRun(text[1..], b, Push(st, text[0]));
      assert st.cur + [text[0]] + text[1..] == st.cur + text;
    }
  }

  lemma DoubleQuotedIsText(text: string, b: string, st: Lexer)
    requires !st.single && !st.double && forall c :: c in text ==> c !in "\"\\`$"
    ensures Lex("\"" + text + "\"" + b, st) == Lex(b, st.(cur := st.cur + text))
  {
    var s := "\"" + text + "\"" + b;
    assert s[0] == '"' && s[1..] == text + ("\"" + b);
    DoubleQuotedRun(text, b, st.(double := true));
  }

  /** A quote that is never closed is an error. */
  lemma OpenQuoteIsError(a: string)
    requires Lex(a, Start).Some? && (Lex(a, Start).value.single || Lex(a, Start).value.double)
    ensures Split(a) == None
  {
  }

  // The source's loops.

  lemma LexTurn(s: string, st: Lexer)
    requires s != ""
    ensures Lex(s, st) ==
      match Turn(s, st) case None => None case Some(t) => Lex(s[t.used..], t.st)
  {
  }

  /** The arms of a turn, at a position of the whole text. */
  lemma TurnArms(cmd: string, i: nat, st: Lexer)
    requires i < |cmd|
    ensures var s, c, r := cmd[i..], cmd[i], Turn(cmd[i..], st);
            var twice := i + 1 < |cmd| && cmd[i + 1] == c;
            if c == '\'' && !st.double then r == Some(Token(st.(single := !st.single), 1))
            else if c == '"' && !st.single then r == Some(Token(st.(double := !st.double), 1))
            else if c == '\\' && !st.single then
              r == if i + 1 == |cmd| then None else Some(Token(Push(st, cmd[i + 1]), 2))
            else if c == '$' && !st.single && i + 1 < |cmd| && cmd[i + 1] == '(' then
              r == match ParenCommand(s)
                   case None => None
                   case Some(x) => Some(Token(Push(st.(out := st.out + x.subs), 'x'), x.used))
            else if c == '`' && !st.single then
              r == match TickCommand(s)
                   case None => None
                   case Some(x) => Some(Token(st.(out := st.out + x.subs), x.used))
            else if (c == '(' || c == ')') && !st.single && !st.double then r == None
            else if Operator(c) && !st.single && !st.double then
              r == Some(Token(Flush(if c == '>' then Push(st, '>') else st), if c in "|&>" && twice then 2 else 1))
            else r == Some(Token(Push(st, c), 1))
  {
    hide ParenCommand, TickCommand, Push, Flush;
  }

  lemma SplitEnds(s: string)
    ensures Split(s) == match Lex(s, Start) case None => None case Some(st) => Finish(st)
  {
  }

  lemma LexNothing(st: Lexer)
    ensures Lex("", st) == Some(st)
  {
  }

  /** The body of the splitter's loop: the arms of its match on one character. */
  method ReadTurn(cmd: string, at: nat, st: Lexer) returns (r: Option<Token>)
    requires at < |cmd|
    ensures r == Turn(cmd[at..], st)
    decreases |cmd|, 1
  {
    hide Lex, Split, ParenCommand, TickCommand, Blank, Turn;
    TurnArms(cmd, at, st);
    var out, cur := st.out, st.cur;
    var c, i := cmd[at], at + 1;
    if c == '\'' && !st.double {
      return Some(Token(st.(single := !st.single), 1));
    } else if c == '"' && !st.single {
      return Some(Token(st.(double := !st.double), 1));
    } else if c == '\\' && !st.single {
      if i == |cmd| {
        return None;
      }
      cur, i := cur + [cmd[i]], i + 1;
    } else if c == '$' && !st.single && i < |cmd| && cmd[i] == '(' {
      var inner := SplitParen(cmd, at);
      if inner.None? {
        return None;
      }
      out, cur, i := out + inner.value.subs, cur + "x", at + inner.value.used;
    } else if c == '`' && !st.single {
      var inner := SplitTick(cmd, at);
      if inner.None? {
        return None;
      }
      out, i := out + inner.value.subs, at + inner.value.used;
    } else if (c == '(' || c == ')') && !st.single && !st.double {
      return None;
    } else if Operator(c) && !st.single && !st.double {
      if c in "|&>" && i < |cmd| && cmd[i] == c {
        i := i + 1;
      }
      if c == '>' {
        cur := cur + [c];
      }
      if !Blank(cur) {
        out := out + [cur];
      }
      cur := "";
    } else {
      cur := cur + [c];
    }
    return Some(Token(st.(out := out, cur := cur), i - at));
  }

  /** The splitter as written: a loop over the characters, then the open quotes and the last piece. */
  method SplitSubcommands(cmd: string) returns (r: Option<seq<string>>)
    ensures r == Split(cmd)
    decreases |cmd|, 2
  {
    hide Lex, Split, Turn;
    var st, i := Start, 0;
    assert cmd[0..] == cmd;
    SplitEnds(cmd);
    while i < |cmd|
      invariant 0 <= i <= |cmd|
      invariant Lex(cmd[i..], st) == Lex(cmd, Start)
    {
      LexTurn(cmd[i..], st);
      var t := ReadTurn(cmd, i, st);
      if t.None? {
        return None;
      }
      assert cmd[i..][t.value.used..] == cmd[i + t.value.used..];
      st, i := t.value.st, i + t.value.used;
    }
    assert cmd[i..] == "";
    LexNothing(st);
    if st.single || st.double {
      return None;
    }
    var out := st.out;
    if !Blank(st.cur) {
      out := out + [st.cur];
    }
    return Some(out);
  }

  /** The arm for `$(`: reads the text up to its `)`, counting parentheses, and splits it. */
  method SplitParen(cmd: string, at: nat) returns (r: Option<Inner>)
    requires at + 2 <= |cmd|
    ensures r == ParenCommand(cmd[at..])
    decreases |cmd|, 0
  {
    hide CloseParen;
    var start, next, depth := at + 2, at + 2, 1;
    var inner, closed := "", false;
    ghost var target := CloseParen(cmd[start..], 1);
    while next < |cmd| && !closed
      invariant depth >= 0 && closed == (depth == 0)
      invariant start <= next <= |cmd| && (closed ==> start < next)
      invariant inner == cmd[start..if closed then next - 1 else next]
      invariant closed ==> target == Some(next - 1 - start)
      invariant !closed ==> target == Shift(CloseParen(cmd[next..], depth), next - start)
      decreases |cmd| - next
    {
      var c := cmd[next];
      CloseParenAt(cmd, next, depth);
      next := next + 1;
      depth := if c == '(' then depth + 1 else if c == ')' then depth - 1 else depth;
      closed := depth == 0;
      if !closed {
        inner := inner + [c];
      }
    }
    assert cmd[at..][2..] == cmd[start..];
    if !closed {
      CloseAtEnd(cmd, next, depth);
      return None;
    }
    assert cmd[at..][2..2 + |inner|] == inner;
    var subs := SplitSubcommands(inner);
    r := if subs.None? then None else Some(Inner(subs.value, |inner| + 3));
  }

  /** One more character of a substitution. */
  lemma CloseParenAt(cmd: string, i: nat, depth: nat)
    requires i < |cmd| && depth > 0
    ensures CloseParen(cmd[i..], depth) ==
      if cmd[i] == '(' then Shift(CloseParen(cmd[i + 1..], depth + 1), 1)
      else if cmd[i] != ')' then Shift(CloseParen(cmd[i + 1..], depth), 1)
      else if depth == 1 then Some(0)
      else Shift(CloseParen(cmd[i + 1..], depth - 1), 1)
  {
    assert cmd[i..][1..] == cmd[i + 1..];
  }

  lemma CloseAtEnd(cmd: string, i: nat, depth: nat)
    requires i == |cmd| && depth > 0
    ensures CloseParen(cmd[i..], depth) == None && CloseTick(cmd[i..]) == None
  {
  }

  /** The arm for a backtick: reads the text up to the next one and splits it. */
  method SplitTick(cmd: string, at: nat) returns (r: Option<Inner>)
    requires at + 1 <= |cmd|
    ensures r == TickCommand(cmd[at..])
    decreases |cmd|, 0
  {
    hide CloseTick;
    var start, next := at + 1, at + 1;
    var inner, closed := "", false;
    ghost var target := CloseTick(cmd[start..]);
    while next < |cmd| && !closed
      invariant start <= next <= |cmd| && (closed ==> start < next)
      invariant inner == cmd[start..if closed then next - 1 else next]
      invariant closed ==> target == Some(next - 1 - start)
      invariant !closed ==> target == Shift(CloseTick(cmd[next..]), next - start)
      decreases |cmd| - next
    {
      var c := cmd[next];
      CloseTickAt(cmd, next);
      next := next + 1;
      closed := c == '`';
      if !closed {
        inner := inner + [c];
      }
    }
    assert cmd[at..][1..] == cmd[start..];
    if !closed {
      CloseAtEnd(cmd, next, 1);
      return None;
    }
    assert cmd[at..][1..1 + |inner|] == inner;
    var subs := SplitSubcommands(inner);
    r := if subs.None? then None else Some(Inner(subs.value, |inner| + 2));
  }

  lemma CloseTickAt(cmd: string, i: nat)
    requires i < |cmd|
    ensures CloseTick(cmd[i..]) == if cmd[i] == '`' then Some(0) else Shift(CloseTick(cmd[i + 1..]), 1)
  {
    assert cmd[i..][1..] == cmd[i + 1..];
  }

  // The command head.

  /** The words of a text, as split_whitespace gives them. */
  function Words(s: string): (r: seq<string>)
    decreases |s|
  {
    if s == "" then []
    else if White(s[0]) then Words(s[1..])
    else var k := WordEnd(s); [s[..k]] + Words(s[k..])
  }

  function WordEnd(s: string): (k: nat)
    ensures k <= |s| && (s != "" && !White(s[0]) ==> k > 0)
    ensures forall i :: 0 <= i < k ==> !White(s[i])
    ensures k < |s| ==> White(s[k])
  {
    if s == "" || White(s[0]) then 0 else 1 + WordEnd(s[1..])
  }

  predicate Word(w: string) {
    w != "" && forall c :: c in w ==> !White(c)
  }

  /** A word and a blank in front of a text are one more word in front of its words. */
  lemma WordsCons(w: string, blank: char, s: string)
    requires Word(w) && White(blank)
    ensures Words(w + [blank] + s) == [w] + Words(s)
  {
    var t := w + [blank] + s;
    assert t[0] == w[0] && t[0] in w;
    assert forall i :: 0 <= i < |w| ==> t[i] == w[i] && w[i] in w;
    assert t[|w|] == blank;
    assert WordEnd(t) == |w|;
    assert t[..|w|] == w && t[|w|..] == [blank] + s && t[|w|..][1..] == s;
  }

  predicate IdentChar(c: char) {
    'a' <= c <= 'z' || 'A' <= c <= 'Z' || '0' <= c <= '9' || c == '_'
  }

  predicate IsIdent(s: string) {
    s != "" && (forall i :: 0 <= i < |s| ==> IdentChar(s[i])) && !('0' <= s[0] <= '9')
  }

  /** The text before the first '='. */
  function BeforeEquals(s: string): string {
    if s == "" || s[0] == '=' then "" else [s[0]] + BeforeEquals(s[1..])
  }

  /** The text after the last '/'. */
  function AfterSlash(s: string): string {
    if s == "" || s[|s| - 1] == '/' then "" else AfterSlash(s[..|s| - 1]) + [s[|s| - 1]]
  }

  /** NAME=value in front of a command. */
  predicate Assignment(w: string) {
    '=' in w && w[0] != '/' && IsIdent(BeforeEquals(w))
  }

  function HeadOf(words: seq<string>): Option<string> {
    if words == [] then None
    else if Assignment(words[0]) then HeadOf(words[1..])
    else var name := AfterSlash(words[0]); if name == "" then None else Some(name)
  }

  function Head(sub: string): Option<string> {
    HeadOf(Words(sub))
  }

  /** command_head as written: take words while they are assignments. */
  method CommandHead(sub: string) returns (r: Option<string>)
    ensures r == Head(sub)
  {
    var words := Words(sub);
    if words == [] {
      return None;
    }
    var i := 0;
    assert words[0..] == words;
    while Assignment(words[i])
      invariant i < |words| && HeadOf(words[i..]) == HeadOf(words)
      decreases |words| - i
    {
      assert words[i..][1..] == words[i + 1..];
      i := i + 1;
      if i == |words| {
        return None;
      }
    }
    var name := AfterSlash(words[i]);
    r := if name == "" then None else Some(name);
  }

  lemma {:induction false} AfterSlashIs(s: string) returns (p: Option<string>)
    ensures '/' !in AfterSlash(s)
    ensures s == if p.None? then AfterSlash(s) else p.value + "/" + AfterSlash(s)
  {
    p := None;
    if s != "" {
      var l := |s| - 1;
      if s[l] == '/' {
        p := Some(s[..l]);
      } else {
        p := AfterSlashIs(s[..l]);
        assert s == s[..l] + [s[l]];
      }
    }
  }

  ghost predicate NamedBy(word: string, name: string) {
    name != "" && '/' !in name && (word == name || (exists p: string :: word == p + "/" + name))
  }

  lemma {:induction false} PlainName(n: string)
    requires '/' !in n
    ensures AfterSlash(n) == n
  {
    if n != "" {
      var l := |n| - 1;
      assert n[l] in n && n == n[..l] + [n[l]];
      PlainName(n[..l]);
    }
  }

  lemma {:induction false} NameIsUnique(p: string, n: string)
    requires '/' !in n
    ensures AfterSlash(p + "/" + n) == n
  {
    var s := p + "/" + n;
    if n != "" {
      var l := |n| - 1;
      NameIsUnique(p, n[..l]);
      assert s[..|s| - 1] == p + "/" + n[..l];
      assert s[|s| - 1] == n[l] && n[l] in n;
      assert n == n[..l] + [n[l]];
    }
  }

  lemma NamedByIff(word: string, name: string)
    ensures NamedBy(word, name) <==> name != "" && AfterSlash(word) == name
  {
    var front := AfterSlashIs(word);
    if NamedBy(word, name) {
      PlainName(name);
      if word != name {
        var p: string :| word == p + "/" + name;
        NameIsUnique(p, name);
      }
    }
  }

  /** The head is the last path component of the first word that is no assignment. */
  lemma {:induction false} HeadIs(words: seq<string>, name: string)
    ensures HeadOf(words) == Some(name) <==>
      exists i :: 0 <= i < |words| && !Assignment(words[i]) && NamedBy(words[i], name)
        && forall j :: 0 <= j < i ==> Assignment(words[j])
  {
    if words != [] {
      NamedByIff(words[0], name);
      if Assignment(words[0]) {
        var rest := words[1..];
        HeadIs(rest, name);
        if HeadOf(rest) == Some(name) {
          var i :| 0 <= i < |rest| && !Assignment(rest[i]) && NamedBy(rest[i], name)
            && forall j :: 0 <= j < i ==> Assignment(rest[j]);
          assert words[i + 1] == rest[i];
          assert forall j :: 0 < j < i + 1 ==> words[j] == rest[j - 1];
        } else {
          assert forall i :: 0 < i < |words| ==> words[i] == rest[i - 1];
        }
      }
    }
  }

  lemma {:induction false} BeforeEqualsIs(name: string, value: string)
    requires '=' !in name
    ensures BeforeEquals(name + "=" + value) == name
  {
    var w := name + "=" + value;
    if name != "" {
      assert name[0] in name && w[0] == name[0] && w[1..] == name[1..] + "=" + value;
      BeforeEqualsIs(name[1..], value);
    }
  }

  lemma {:induction false} EqualsSplits(w: string) returns (value: string)
    requires '=' in w
    ensures w == BeforeEquals(w) + "=" + value && '=' !in BeforeEquals(w)
  {
    if w[0] == '=' {
      value := w[1..];
    } else {
      value := EqualsSplits(w[1..]);
      assert w == [w[0]] + w[1..];
    }
  }

  /** A shell variable name: letters, digits and underscores, no digit first. */
  ghost predicate VariableName(s: string) {
    && s != "" && !('0' <= s[0] <= '9')
    && forall c :: c in s ==> 'a' <= c <= 'z' || 'A' <= c <= 'Z' || '0' <= c <= '9' || c == '_'
  }

  /** An assignment is a variable name, an equals sign and anything. */
  lemma AssignmentIs(w: string)
    ensures Assignment(w) <==> exists name, value :: VariableName(name) && w == name + "=" + value
  {
    if Assignment(w) {
      var value := EqualsSplits(w);
      var name := BeforeEquals(w);
      forall c | c in name ensures IdentChar(c) {
        var i :| 0 <= i < |name| && name[i] == c;
      }
      assert VariableName(name) && w == name + "=" + value;
    }
    if name, value :| VariableName(name) && w == name + "=" + value {
      assert '=' !in name;
      BeforeEqualsIs(name, value);
      assert forall i :: 0 <= i < |name| ==> name[i] in name;
      assert IsIdent(name);
      assert w[|name|] == '=' && w[0] == name[0];
    }
  }

  /** NAME=value in front of a command leaves its head: `A=1 rm` is `rm`. */
  lemma VariableIsStripped(name: string, value: string, blank: char, sub: string)
    requires VariableName(name) && (forall c :: c in value ==> !White(c)) && White(blank)
    ensures Head(name + "=" + value + [blank] + sub) == Head(sub)
  {
    var w := name + "=" + value;
    AssignmentIs(w);
    forall c | c in w ensures !White(c) {
      assert c in name || c == '=' || c in value;
    }
    AssignmentIsStripped(w, blank, sub);
  }

  /** Assignments in front of a command do not hide it. */
  lemma AssignmentIsStripped(w: string, blank: char, sub: string)
    requires Word(w) && Assignment(w) && White(blank)
    ensures Head(w + [blank] + sub) == Head(sub)
  {
    WordsCons(w, blank, sub);
    assert ([w] + Words(sub))[1..] == Words(sub);
  }

  // The verdict.

  datatype Level = Readonly | Standard | Full
  datatype Verdict = Allow | RequireConfirmation | Deny
  datatype Engine = Engine(whitelist: seq<string>, blacklist: seq<string>)

  const ReadonlyWhitelist: seq<string> := [
    "ls", "cat", "head", "tail", "less", "more", "grep", "egrep", "fgrep", "find", "pwd", "df", "du",
    "ps", "top", "htop", "free", "uptime", "uname", "hostname", "whoami", "id", "date", "ip", "ss",
    "netstat", "lsof", "dmesg", "journalctl", "systemctl", "mount", "env", "printenv", "wc", "sort",
    "uniq", "diff", "file", "stat", "readlink", "echo", "printf", "true", "false"]

  const DefaultBlacklist: seq<string> := [
    "rm", "mkfs", "dd", "shutdown", "reboot", "halt", "poweroff", "init", "iptables", "useradd",
    "userdel", "usermod", "passwd", "chpasswd", "visudo", "chmod", "chown", "chattr", "yum", "apt",
    "apt-get", "dnf", "zypper", "pacman", "snap", "systemctl-danger"]

  const IndirectShells: seq<string> := [
    "bash", "sh", "dash", "zsh", "ksh", "fish", "eval", "exec", "xargs", "nohup", "sudo", "su",
    "doas", "python", "python3", "perl", "ruby", "node", "awk", "sed"]

  function Whitelist(e: Engine): seq<string> {
    if e.whitelist == [] then ReadonlyWhitelist else e.whitelist
  }

  function Blacklist(e: Engine): seq<string> {
    if e.blacklist == [] then DefaultBlacklist else e.blacklist
  }

  /** A '>' that does not merge descriptors. */
  predicate Redirects(sub: string) {
    exists i :: 0 <= i < |sub| && sub[i] == '>' && !(i + 1 < |sub| && sub[i + 1] == '&')
  }

  /** No head, a forbidden head, or a head that runs other commands. */
  predicate Dangerous(e: Engine, sub: string) {
    var h := Head(sub);
    h.None? || h.value in Blacklist(e) || h.value in IndirectShells
  }

  /** Known to read only. */
  predicate Proven(e: Engine, sub: string) {
    !Dangerous(e, sub) && Head(sub).value in Whitelist(e) && !Redirects(sub)
  }

  predicate SomeDangerous(e: Engine, subs: seq<string>) {
    exists p :: p in subs && Dangerous(e, p)
  }

  predicate AllProven(e: Engine, subs: seq<string>) {
    forall p :: p in subs ==> Proven(e, p)
  }

  /** The policy, without loops: what is parsed, and whether its pieces are dangerous or proven. */
  function Judge(e: Engine, cmd: string, level: Level, production: bool): Verdict {
    match Split(cmd)
    case None => RequireConfirmation
    case Some(subs) =>
      if subs == [] then Deny
      else if SomeDangerous(e, subs) then RequireConfirmation
      else if AllProven(e, subs) then Allow
      else if level == Readonly && !production then Deny
      else RequireConfirmation
  }

  method HasOutputRedirect(sub: string) returns (r: bool)
    ensures r == Redirects(sub)
  {
    for i := 0 to |sub|
      invariant forall j :: 0 <= j < i ==> !(sub[j] == '>' && !(j + 1 < |sub| && sub[j + 1] == '&'))
    {
      if sub[i] == '>' && !(i + 1 < |sub| && sub[i + 1] == '&') {
        return true;
      }
    }
    return false;
  }

  method AllWhitelisted(subs: seq<string>, whitelist: seq<string>) returns (r: bool)
    ensures r == forall p :: p in subs ==> Head(p).Some? && Head(p).value in whitelist
  {
    for i := 0 to |subs|
      invariant forall j :: 0 <= j < i ==> Head(subs[j]).Some? && Head(subs[j]).value in whitelist
    {
      var h := CommandHead(subs[i]);
      if h.None? || h.value !in whitelist {
        assert subs[i] in subs;
        return false;
      }
    }
    return true;
  }

  /** classify as written. */
  method Classify(e: Engine, cmd: string, level: Level, production: bool) returns (v: Verdict)
    ensures v == Judge(e, cmd, level, production)
  {
    hide Split, Head, Redirects, IndirectShells, ReadonlyWhitelist, DefaultBlacklist;
    var parsed := SplitSubcommands(cmd);
    if parsed.None? {
      return RequireConfirmation;
    }
    var subs := parsed.value;
    if subs == [] {
      return Deny;
    }
    var whitelist, blacklist := Whitelist(e), Blacklist(e);
    var unproven := false;
    for i := 0 to |subs|
      invariant forall p :: p in subs[..i] ==> !Dangerous(e, p)
      invariant unproven == !AllProven(e, subs[..i])
    {
      assert subs[..i + 1] == subs[..i] + [subs[i]];
      assert subs[i] in subs[..i + 1] && subs[i] in subs;
      var head := CommandHead(subs[i]);
      if head.None? || head.value in blacklist || head.value in IndirectShells {
        return RequireConfirmation;
      }
      if head.value !in whitelist {
        unproven := true;
      }
      var redirect := HasOutputRedirect(subs[i]);
      if redirect {
        unproven := true;
      }
    }
    assert subs[..|subs|] == subs;
    var white := AllWhitelisted(subs, whitelist);
    if production && (unproven || !white) {
      return RequireConfirmation;
    }
    if unproven {
      return if level == Readonly then Deny else RequireConfirmation;
    }
    return Allow;
  }

  /** Confirmation outranks denial, and denial outranks permission: a joined command is put before
      the user if either part would be. */
  function Combine(a: Verdict, b: Verdict): Verdict {
    if a == RequireConfirmation || b == RequireConfirmation then RequireConfirmation
    else if a == Deny || b == Deny then Deny
    else Allow
  }

  /** The verdict on a joined command is the higher ranking of the verdicts on its parts. */
  lemma JoinVerdict(e: Engine, a: string, sep: char, b: string, level: Level, production: bool)
    requires sep in ";\n|&<"
    requires Split(a).Some? && Split(b).Some? && Split(a).value != [] && Split(b).value != []
    ensures Judge(e, a + [sep] + b, level, production) ==
      Combine(Judge(e, a, level, production), Judge(e, b, level, production))
  {
    hide Split, Dangerous, Proven;
    JoinSplits(a, sep, b);
    var x, y := Split(a).value, Split(b).value;
    assert forall p :: p in x + y <==> p in x || p in y;
    assert SomeDangerous(e, x + y) <==> SomeDangerous(e, x) || SomeDangerous(e, y);
    assert AllProven(e, x + y) <==> AllProven(e, x) && AllProven(e, y);
  }

  /** What is allowed does not depend on the access level or the production flag. */
  lemma AllowIff(e: Engine, cmd: string, level: Level, production: bool)
    ensures Judge(e, cmd, level, production) == Allow <==>
      Split(cmd).Some? && Split(cmd).value != [] && AllProven(e, Split(cmd).value)
  {
    hide Split, Dangerous;
    if Split(cmd).Some? && SomeDangerous(e, Split(cmd).value) {
      var p :| p in Split(cmd).value && Dangerous(e, p);
      assert !Proven(e, p);
    }
  }

  /** Which of the other two verdicts a command gets. What does not parse, or has a dangerous piece,
      is put before the user at every level; what is merely unproven is denied only to a read-only
      session outside production; an empty command is always denied. */
  lemma VerdictIs(e: Engine, cmd: string, level: Level, production: bool)
    ensures var v, subs := Judge(e, cmd, level, production), Split(cmd);
      && (v == Deny <==>
            subs.Some? && (subs.value == [] ||
                           (!SomeDangerous(e, subs.value) && !AllProven(e, subs.value) && level == Readonly && !production)))
      && (v == RequireConfirmation <==>
            subs.None? || (subs.value != [] &&
                           (SomeDangerous(e, subs.value) ||
                            (!AllProven(e, subs.value) && (production || level != Readonly)))))
  {
    hide Split, Dangerous, Proven;
    AllowIff(e, cmd, level, production);
    if Split(cmd).Some? && SomeDangerous(e, Split(cmd).value) {
      DangerIsUnproven(e, Split(cmd).value);
    }
  }

  lemma DangerIsUnproven(e: Engine, subs: seq<string>)
    requires SomeDangerous(e, subs)
    ensures !AllProven(e, subs)
  {
    var p :| p in subs && Dangerous(e, p);
    assert !Proven(e, p);
  }

  /** Nothing unproven hides in a substitution of an allowed command. */
  lemma AllowedSubstitution(e: Engine, a: string, inner: string, b: string, level: Level, production: bool)
    requires Lex(a, Start).Some? && !Lex(a, Start).value.single
    requires CloseParen(inner + ")", 1) == Some(|inner|)
    requires Judge(e, a + ("$(" + inner + ")" + b), level, production) == Allow
    ensures Split(inner) == Some([]) || forall l, f :: Judge(e, inner, l, f) == Allow
  {
    hide Lex, Split, Proven, CloseParen;
    AllowIff(e, a + ("$(" + inner + ")" + b), level, production);
    SubstitutionIsSeen(a, inner, b);
    forall l, f ensures Split(inner) == Some([]) || Judge(e, inner, l, f) == Allow {
      AllowIff(e, inner, l, f);
    }
  }

  /**
   * An unquoted and unescaped '>' is never allowed, and a following '&' makes no difference: the
   * splitter cuts the piece right after the '>', so the exemption for merged descriptors cannot
   * apply to it.
   */
  lemma RedirectNeverAllowed(e: Engine, a: string, b: string, level: Level, production: bool)
    requires Lex(a, Start).Some?
    requires var st := Lex(a, Start).value; !st.single && !st.double
    ensures Judge(e, a + (">" + b), level, production) != Allow
  {
    hide Lex, Head, Redirects, ReadonlyWhitelist, DefaultBlacklist, IndirectShells;
    var cmd := a + (">" + b);
    AllowIff(e, cmd, level, production);
    if Split(cmd).Some? {
      var piece := RedirectPiece(a, b, Start);
      hide Split;
      assert !Proven(e, piece);
    }
  }

  lemma {:induction false} RedirectPiece(a: string, b: string, st: Lexer) returns (piece: string)
    requires Lex(a, st).Some? && !Lex(a, st).value.single && !Lex(a, st).value.double
    requires Lex(a + (">" + b), st).Some? && Finish(Lex(a + (">" + b), st).value).Some?
    ensures piece in Finish(Lex(a + (">" + b), st).value).value && Redirects(piece)
    decreases |a|
  {
    LexNothing(st);
    hide Turn, Lex, Finish, Redirects;
    var rest := ">" + b;
    if a == "" {
      assert a + rest == rest;
      piece := RedirectCut(b, st);
    } else if |a| == 1 && Straddles(a[0], rest, st) {
      assert a + rest == ">" + rest;
      piece := RedirectCut(rest, st);
    } else {
      LexTurn(a, st);
      var t := Turn(a, st).value;
      TurnExtends(a, rest, st);
      LexTurn(a + rest, st);
      assert (a + rest)[t.used..] == a[t.used..] + rest;
      piece := RedirectPiece(a[t.used..], b, t.st);
    }
  }

  lemma RedirectCut(b: string, st: Lexer) returns (piece: string)
    requires !st.single && !st.double && Lex(">" + b, st).Some? && Finish(Lex(">" + b, st).value).Some?
    ensures piece in Finish(Lex(">" + b, st).value).value && Redirects(piece)
  {
    var t := RedirectTurn(b, st);
    LexTurn(">" + b, st);
    hide Turn, Blank, Lex;
    PiecesStay((">" + b)[t.used..], t.st);
    piece := st.cur + ">";
    assert piece in t.st.out;
    assert piece[|st.cur|] == '>';
  }

  lemma RedirectTurn(b: string, st: Lexer) returns (t: Token)
    requires !st.single && !st.double
    ensures Turn(">" + b, st) == Some(t) && t.st.out == st.out + [st.cur + ">"]
  {
    t := Turn(">" + b, st).value;
    assert !Blank(st.cur + ">") by {
      assert (st.cur + ">")[|st.cur|] == '>';
    }
  }

  // Quoted, the exemption does apply.

  lemma IdentIsPlain(name: string)
    requires forall c :: c in name ==> IdentChar(c)
    ensures forall c :: c in name + " " ==> c !in "'\"\\`$()|;&\n<>"
  {
  }

  lemma IdentHead(name: string, text: string)
    requires name != "" && forall c :: c in name ==> IdentChar(c)
    ensures Head(name + " " + text) == Some(name)
  {
    WordsCons(name, ' ', text);
    PlainName(name);
  }

  lemma QuotedArgument(name: string, text: string)
    requires name != "" && (forall c :: c in name ==> IdentChar(c)) && '\'' !in text
    ensures Split(name + " " + ("'" + text + "'")) == Some([name + " " + text])
  {
    hide Lex, Split, White, IdentChar;
    var a, piece := name + " ", name + " " + text;
    var cmd := a + ("'" + text + "'" + "");
    assert cmd == name + " " + ("'" + text + "'");
    IdentIsPlain(name);
    PlainText(a, Start);
    assert Start.(cur := Start.cur + a) == Lexer([], a, false, false);
    QuotedIsLiteral(a, text, "");
    SplitEnds(cmd);
    LexNothing(Lexer([], piece, false, false));
    assert Lex(cmd, Start) == Some(Lexer([], piece, false, false));
    StartsInk(name, text);
    assert Flush(Lexer([], piece, false, false)).out == [piece];
  }

  lemma StartsInk(name: string, text: string)
    requires name != "" && forall c :: c in name ==> IdentChar(c)
    ensures !Blank(name + " " + text)
  {
    assert (name + " " + text)[0] == name[0] && name[0] in name;
  }

  /** A quoted '>' followed by '&' is no redirect: such an argument leaves a proven command allowed. */
  lemma QuotedMergeIsExempt(e: Engine, name: string, text: string, level: Level, production: bool)
    requires name != "" && forall c :: c in name ==> IdentChar(c)
    requires name in Whitelist(e) && name !in Blacklist(e) && name !in IndirectShells
    requires '\'' !in text && !Redirects(text)
    ensures Judge(e, name + " " + ("'" + text + "'"), level, production) == Allow
  {
    hide ReadonlyWhitelist, DefaultBlacklist, IndirectShells, Words, HeadOf, Whitelist, Blacklist, Split;
    QuotedArgument(name, text);
    IdentHead(name, text);
    ArgumentRedirects(name, text);
    AllowIff(e, name + " " + ("'" + text + "'"), level, production);
  }

  lemma ArgumentRedirects(name: string, text: string)
    requires forall c :: c in name ==> IdentChar(c)
    ensures Redirects(name + " " + text) ==> Redirects(text)
  {
    var s, n := name + " " + text, |name| + 1;
    forall i | 0 <= i < n ensures s[i] != '>' {
      assert i < |name| ==> s[i] == name[i] && name[i] in name;
    }
    if j :| 0 <= j < |s| && s[j] == '>' && !(j + 1 < |s| && s[j + 1] == '&') {
      assert text[j - n] == '>' && !(j - n + 1 < |text| && text[j - n + 1] == '&');
    }
  }

  // Which `>` make a command a write.

  /**
   * The criterion on the text alone. `open` says that the last character of the piece being read is
   * a quoted or escaped '>', of which the next character will decide. An operator '>' always
   * counts; a literal one counts unless the next character of its piece is '&'; a substitution
   * counts by the same criterion.
   */
  predicate Writes(s: string, single: bool, double: bool, open: bool)
    decreases |s|
  {
    if s == "" then open
    else
      var c := s[0];
      if c == '\'' && !double then Writes(s[1..], !single, double, open)
      else if c == '"' && !single then Writes(s[1..], single, !double, open)
      else if c == '\\' && !single && |s| > 1 then
        (open && s[1] != '&') || Writes(s[2..], single, double, s[1] == '>')
      else if !single && OpensSubstitution(s) && CloseParen(s[2..], 1).Some? then
        var k := CloseParen(s[2..], 1).value;
        open || Writes(s[2..2 + k], false, false, false) || Writes(s[3 + k..], single, double, false)
      else if c == '`' && !single && CloseTick(s[1..]).Some? then
        var k := CloseTick(s[1..]).value;
        Writes(s[1..1 + k], false, false, false) || Writes(s[2 + k..], single, double, open)
      else if Operator(c) && !single && !double then
        c == '>' || open || Writes(s[if Doubled(s) then 2 else 1..], single, double, false)
      else (open && c != '&') || Writes(s[1..], single, double, c == '>')
  }

  predicate Open(cur: string) {
    cur != "" && cur[|cur| - 1] == '>'
  }

  /** Some '>' before the last character is not followed by '&'. */
  predicate Decided(cur: string) {
    exists i :: 0 <= i < |cur| - 1 && cur[i] == '>' && cur[i + 1] != '&'
  }

  predicate SomeRedirects(subs: seq<string>) {
    exists p :: p in subs && Redirects(p)
  }

  lemma RedirectsWhen(cur: string)
    ensures Redirects(cur) <==> Decided(cur) || Open(cur)
  {
    if i :| 0 <= i < |cur| && cur[i] == '>' && !(i + 1 < |cur| && cur[i + 1] == '&') {
      assert i < |cur| - 1 ==> cur[i + 1] != '&';
    }
    if Open(cur) {
      assert cur[|cur| - 1] == '>';
    }
  }

  lemma PushDecides(cur: string, c: char)
    ensures Decided(cur + [c]) <==> Decided(cur) || (Open(cur) && c != '&')
    ensures Open(cur + [c]) <==> c == '>'
  {
    var more := cur + [c];
    if i :| 0 <= i < |cur| - 1 && cur[i] == '>' && cur[i + 1] != '&' {
      assert more[i] == '>' && more[i + 1] != '&';
    }
    if Open(cur) && c != '&' {
      assert more[|cur| - 1] == '>' && more[|cur|] != '&';
    }
    if i :| 0 <= i < |more| - 1 && more[i] == '>' && more[i + 1] != '&' {
      assert cur[i] == '>' && (i < |cur| - 1 ==> cur[i + 1] != '&');
    }
  }

  lemma RedirectsJoin(a: seq<string>, b: seq<string>)
    ensures SomeRedirects(a + b) <==> SomeRedirects(a) || SomeRedirects(b)
  {
    hide Redirects;
    assert forall p :: p in a + b <==> p in a || p in b;
  }

  lemma FlushRedirects(st: Lexer)
    ensures SomeRedirects(Flush(st).out) <==> SomeRedirects(st.out) || Redirects(st.cur)
  {
    RedirectsJoin(st.out, [st.cur]);
    if Blank(st.cur) {
      assert forall i :: 0 <= i < |st.cur| ==> White(st.cur[i]) && st.cur[i] != '>';
    } else {
      hide Redirects, Blank;
      assert SomeRedirects([st.cur]) <==> Redirects(st.cur) by {
        assert st.cur in [st.cur];
        assert forall p :: p in [st.cur] ==> p == st.cur;
      }
    }
  }

  /** What the scanner has and what is still to be read, together. */
  predicate WillWrite(s: string, st: Lexer) {
    SomeRedirects(st.out) || Decided(st.cur) || Writes(s, st.single, st.double, Open(st.cur))
  }

  lemma LiteralWrites(s: string, st: Lexer, c: char, used: nat)
    requires used <= |s|
    requires Writes(s, st.single, st.double, Open(st.cur)) <==>
             (Open(st.cur) && c != '&') || Writes(s[used..], st.single, st.double, c == '>')
    ensures WillWrite(s, st) <==> WillWrite(s[used..], Push(st, c))
  {
    hide Writes, SomeRedirects, Decided;
    PushDecides(st.cur, c);
  }

  lemma OperatorWrites(s: string, st: Lexer)
    requires s != "" && Operator(s[0]) && !st.single && !st.double
    ensures Turn(s, st).Some? && WillWrite(s, st) <==>
            Turn(s, st).Some? && WillWrite(s[Turn(s, st).value.used..], Turn(s, st).value.st)
  {
    var last := if s[0] == '>' then Push(st, '>') else st;
    assert Turn(s, st) == Some(Token(Flush(last), if Doubled(s) then 2 else 1));
    hide Turn;
    FlushRedirects(last);
    RedirectsWhen(last.cur);
    PushDecides(st.cur, '>');
    assert !Decided("") && !Open("");
  }

  /** One turn changes nothing about it. */
  lemma TurnWrites(s: string, st: Lexer)
    requires s != "" && Turn(s, st).Some?
    ensures WillWrite(s, st) <==> WillWrite(s[Turn(s, st).value.used..], Turn(s, st).value.st)
    decreases |s|, 0
  {
    var c := s[0];
    if (c == '\'' && !st.double) || (c == '"' && !st.single) {
    } else if c == '\\' && !st.single {
      LiteralWrites(s, st, s[1], 2);
    } else if !st.single && OpensSubstitution(s) {
      var k := CloseParen(s[2..], 1).value;
      var subs := Split(s[2..2 + k]).value;
      SplitWrites(s[2..2 + k]);
      RedirectsJoin(st.out, subs);
      PushDecides(st.cur, 'x');
    } else if c == '`' && !st.single {
      var k := CloseTick(s[1..]).value;
      SplitWrites(s[1..1 + k]);
      RedirectsJoin(st.out, Split(s[1..1 + k]).value);
    } else if Operator(c) && !st.single && !st.double {
      OperatorWrites(s, st);
    } else {
      LiteralWrites(s, st, c, 1);
    }
  }

  lemma {:induction false} LexWrites(s: string, st: Lexer)
    requires Lex(s, st).Some? && Finish(Lex(s, st).value).Some?
    ensures SomeRedirects(Finish(Lex(s, st).value).value) <==> WillWrite(s, st)
    decreases |s|, 1
  {
    if s == "" {
      FlushRedirects(st);
      RedirectsWhen(st.cur);
    } else {
      TurnWrites(s, st);
      LexTurn(s, st);
      hide Turn, Lex, WillWrite, SomeRedirects;
      var t := Turn(s, st).value;
      LexWrites(s[t.used..], t.st);
    }
  }

  /**
   * A command that parses has a piece with an output redirect if and only if its text has an
   * unquoted and unescaped '>', or a literal one that no '&' follows in its piece.
   */
  lemma {:induction false} SplitWrites(s: string)
    requires Split(s).Some?
    ensures SomeRedirects(Split(s).value) <==> Writes(s, false, false, false)
    decreases |s|, 2
  {
    hide Writes;
    LexWrites(s, Start);
    assert !SomeRedirects([]) && !Decided("") && !Open("");
  }

  /** So nothing that writes by this criterion is ever allowed, and a literal `>&` alone forbids nothing. */
  lemma AllowedWritesNothing(e: Engine, cmd: string, level: Level, production: bool)
    ensures Judge(e, cmd, level, production) == Allow <==>
      && Split(cmd).Some? && Split(cmd).value != [] && !Writes(cmd, false, false, false)
      && forall p :: p in Split(cmd).value ==> !Dangerous(e, p) && Head(p).value in Whitelist(e)
  {
    hide Split, Writes, Redirects, Dangerous, Head, Whitelist;
    AllowIff(e, cmd, level, production);
    if Split(cmd).Some? {
      SplitWrites(cmd);
    }
  }

  // Simple commands.

  /** The verdict on a name and plain arguments: by the lists alone, the user's own where there are any. */
  lemma SimpleCommand(e: Engine, name: string, args: string, level: Level, production: bool)
    requires name != "" && forall c :: c in name ==> IdentChar(c)
    requires forall c :: c in args ==> c !in "'\"\\`$()|;&\n<>"
    ensures Judge(e, name + " " + args, level, production) ==
      if name in (if e.blacklist == [] then DefaultBlacklist else e.blacklist) || name in IndirectShells
      then RequireConfirmation
      else if name in (if e.whitelist == [] then ReadonlyWhitelist else e.whitelist) then Allow
      else if level == Readonly && !production then Deny
      else RequireConfirmation
  {
    hide ReadonlyWhitelist, DefaultBlacklist, IndirectShells, Words, HeadOf, Split, Redirects;
    var cmd := name + " " + args;
    SimplePiece(name, args);
    IdentHead(name, args);
    assert Split(cmd).value == [cmd];
    assert forall p :: p in Split(cmd).value <==> p == cmd;
    assert SomeDangerous(e, Split(cmd).value) <==> Dangerous(e, cmd) by { assert cmd in Split(cmd).value; }
    assert AllProven(e, Split(cmd).value) <==> Proven(e, cmd) by { assert cmd in Split(cmd).value; }
  }

  lemma SimplePiece(name: string, args: string)
    requires name != "" && forall c :: c in name ==> IdentChar(c)
    requires forall c :: c in args ==> c !in "'\"\\`$()|;&\n<>"
    ensures Split(name + " " + args) == Some([name + " " + args]) && !Redirects(name + " " + args)
  {
    var cmd := name + " " + args;
    IdentIsPlain(name);
    forall c | c in cmd ensures c !in "'\"\\`$()|;&\n<>" {
      assert c in name + " " || c in args;
    }
    assert cmd[0] == name[0] && name[0] in name && '!' <= cmd[0] <= '~' && cmd[0] in cmd;
    PlainCommand(cmd);
    forall i | 0 <= i < |cmd| ensures cmd[i] != '>' {
      assert cmd[i] in cmd;
    }
  }

  /** With the built-in lists: listing is allowed, removing and raising privileges are put before the
      user, and an unknown program is denied to a read-only session. */
  lemma BuiltInLists(args: string, level: Level, production: bool)
    requires forall c :: c in args ==> c !in "'\"\\`$()|;&\n<>"
    ensures Judge(Engine([], []), "ls" + " " + args, level, production) == Allow
    ensures Judge(Engine([], []), "rm" + " " + args, level, production) == RequireConfirmation
    ensures Judge(Engine([], []), "sudo" + " " + args, level, production) == RequireConfirmation
  {
    hide Judge, Split, DefaultBlacklist, IndirectShells, ReadonlyWhitelist;
    var e := Engine([], []);
    Listed();
    NotListed();
    SimpleCommand(e, "ls", args, level, production);
    SimpleCommand(e, "rm", args, level, production);
    SimpleCommand(e, "sudo", args, level, production);
  }

  lemma Listed()
    ensures "ls" in ReadonlyWhitelist && "rm" in DefaultBlacklist && "sudo" in IndirectShells
  {
    ListsLs();
    BlocksRm();
    hide ReadonlyWhitelist, DefaultBlacklist;
    var name := IndirectShells[10];
    assert name == ['s', 'u', 'd', 'o'];
  }

  lemma ListsLs()
    ensures "ls" in ReadonlyWhitelist
  {
    var name := ReadonlyWhitelist[0];
    assert name == ['l', 's'];
  }

  lemma BlocksRm()
    ensures "rm" in DefaultBlacklist
  {
    var name := DefaultBlacklist[0];
    assert name == ['r', 'm'];
  }

  lemma NotListed()
    ensures "ls" !in DefaultBlacklist && "ls" !in IndirectShells
  {
    forall i | 0 <= i < |DefaultBlacklist| ensures DefaultBlacklist[i] != "ls" {
      assert |DefaultBlacklist[i]| != 2 || DefaultBlacklist[i][0] != 'l';
    }
    forall i | 0 <= i < |IndirectShells| ensures IndirectShells[i] != "ls" {
      assert |IndirectShells[i]| != 2 || IndirectShells[i][0] != 'l';
    }
  }
}
