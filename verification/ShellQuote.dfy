/**
 The shell command that stores a file in a container (Put of internal/engine/containerlab.go), read back as the
 shell reads it: backslash and single quotes as in sections 2.2.1 and 2.2.2 of the POSIX.1-2017 Shell Command
 Language, blanks and the two operators that the command uses.
 */
module ShellQuote {

  import opened Records

  /** Quotes inside become: end the quotes, an escaped quote, begin again. */
  function Escape(s: string): string {
    if s == "" then ""
    else if s[0] == '\'' then "'\\''" + Escape(s[1..])
    else [s[0]] + Escape(s[1..])
  }

  function Quote(s: string): string {
    "'" + Escape(s) + "'"
  }

  // ---------- the shell's side ----------

  predicate Delimits(c: char) {
    c in {' ', '\t', '\n', ';', '&', '|', '<', '>', '(', ')'}
  }

  /** Means something to the shell outside quotes, or may. */
  predicate Special(c: char) {
    Delimits(c) || c in {'\\', '\'', '"', '$', '`', '*', '?', '[', '#', '~', '=', '%', '!', '{', '}'}
  }

  datatype Lexed = Lexed(word: string, rest: string)

  /** The rest of a word outside quotes, with its value so far. */
  function Bare(t: string, acc: string): (r: Option<Lexed>)
    ensures r.Some? ==> |r.value.rest| <= |t|
    ensures r.Some? && t != "" && !Delimits(t[0]) ==> |r.value.rest| < |t|
  {
    if t == "" || Delimits(t[0]) then Some(Lexed(acc, t))
    else if t[0] == '\'' then Quoted(t[1..], acc)
    else if t[0] == '\\' then
      if |t| == 1 then None
      else if t[1] == '\n' then Bare(t[2..], acc)
      else Bare(t[2..], acc + [t[1]])
    else if Special(t[0]) then None
    else Bare(t[1..], acc + [t[0]])
  }

  /** The rest of a word inside single quotes: every character stands for itself up to the next quote. */
  function Quoted(t: string, acc: string): (r: Option<Lexed>)
    ensures r.Some? ==> |r.value.rest| < |t|
  {
    if t == "" then None
    else if t[0] == '\'' then Bare(t[1..], acc)
    else Quoted(t[1..], acc + [t[0]])
  }

  datatype Inner = Inner(words: seq<string>, rest: string)

  /** The words of a command substitution, up to its closing parenthesis. */
  function Words(t: string): (r: Option<Inner>)
    ensures r.Some? ==> |r.value.rest| < |t|
    decreases |t|
  {
    if t == "" then None
    else if t[0] == ' ' then Words(t[1..])
    else if t[0] == ')' then Some(Inner([], t[1..]))
    else if Delimits(t[0]) then None
    else match Bare(t, "")
      case None => None
      case Some(l) =>
        match Words(l.rest)
        case None => None
        case Some(inner) => Some(Inner([l.word] + inner.words, inner.rest))
  }

  /** `Output`: the output of a command as one word, because it stands in double quotes. */
  datatype Token = Word(value: string) | Output(command: seq<string>) | Op(name: string)

  function Tokens(t: string): Option<seq<Token>>
    decreases |t|
  {
    if t == "" then Some([])
    else if t[0] == ' ' then Tokens(t[1..])
    else if |t| >= 2 && t[..2] == "&&" then Then(Op("&&"), Tokens(t[2..]))
    else if t[0] == '>' then Then(Op(">"), Tokens(t[1..]))
    else if |t| >= 3 && t[..3] == "\"$(" then
      match Words(t[3..])
      case None => None
      case Some(inner) =>
        if inner.rest != "" && inner.rest[0] == '"' && (|inner.rest| == 1 || Delimits(inner.rest[1]))
        then Then(Output(inner.words), Tokens(inner.rest[1..])) else None
    else if Delimits(t[0]) then None
    else match Bare(t, "")
      case None => None
      case Some(l) => Then(Word(l.word), Tokens(l.rest))
  }

  function Then(token: Token, rest: Option<seq<Token>>): Option<seq<Token>> {
    match rest
    case None => None
    case Some(tokens) => Some([token] + tokens)
  }

  // ---------- quoting is undone ----------

  /** An escaped quote between two quoted parts adds one quote to the word. */
  lemma EscapedQuote(tail: string, acc: string)
    ensures Quoted("'\\''" + tail, acc) == Quoted(tail, acc + "'")
  {
    hide Special;
    var t := "'\\''" + tail;
    var u := "\\'" + ("'" + tail);
    var v := "'" + tail;
    assert t[1..] == u && u[2..] == v && v[1..] == tail;
    assert Quoted(t, acc) == Bare(u, acc);
    assert Bare(u, acc) == Bare(v, acc + [u[1]]);
    assert acc + [u[1]] == acc + "'";
    assert Bare(v, acc + "'") == Quoted(tail, acc + "'");
  }

  /** Inside quotes, the escaped text and the closing quote give back the text. */
  lemma {:induction false} EscapeIsRead(s: string, rest: string, acc: string)
    ensures Quoted(Escape(s) + "'" + rest, acc) == Bare(rest, acc + s)
  {
    hide Bare;
    var t := Escape(s) + "'" + rest;
    if s == "" {
      assert t == "'" + rest && t[1..] == rest && acc + s == acc;
    } else {
      var tail := Escape(s[1..]) + "'" + rest;
      EscapeIsRead(s[1..], rest, acc + [s[0]]);
      assert (acc + [s[0]]) + s[1..] == acc + s;
      if s[0] == '\'' {
        assert t == "'\\''" + tail;
        EscapedQuote(tail, acc);
        assert acc + [s[0]] == acc + "'";
      } else {
        assert t == [s[0]] + tail && t[1..] == tail;
      }
    }
  }

  /** Before a delimiter or the end, a quoted string is exactly one word: the string. */
  lemma QuoteIsOneWord(s: string, rest: string)
    requires rest == "" || Delimits(rest[0])
    ensures Bare(Quote(s) + rest, "") == Some(Lexed(s, rest))
    ensures Quote(s) != "" && Quote(s)[0] == '\''
  {
    hide Special, Escape;
    var body := Escape(s) + "'" + rest;
    assert Quote(s) + rest == "'" + body && ("'" + body)[1..] == body;
    assert Bare("'" + body, "") == Quoted(body, "");
    EscapeIsRead(s, rest, "");
    assert "" + s == s;
  }

  lemma {:induction false} PlainIsOneWord(w: string, rest: string, acc: string)
    requires forall i :: 0 <= i < |w| ==> !Special(w[i])
    requires rest == "" || Delimits(rest[0])
    ensures Bare(w + rest, acc) == Some(Lexed(acc + w, rest))
  {
    if w == "" {
      assert w + rest == rest && acc + w == acc;
    } else {
      assert (w + rest)[1..] == w[1..] + rest && (w + rest)[0] == w[0];
      PlainIsOneWord(w[1..], rest, acc + [w[0]]);
      assert (acc + [w[0]]) + w[1..] == acc + w;
    }
  }

  /** A plain word and a blank, then the rest. */
  lemma PlainToken(w: string, rest: string)
    requires w != "" && forall i :: 0 <= i < |w| ==> !Special(w[i])
    ensures Tokens(w + " " + rest) == Then(Word(w), Tokens(rest))
    ensures Words(w + " " + rest) == match Words(rest)
      case None => None
      case Some(inner) => Some(Inner([w] + inner.words, inner.rest))
  {
    var t := w + " " + rest;
    PlainIsOneWord(w, " " + rest, "");
    assert t == w + (" " + rest) && t[0] == w[0] && "" + w == w;
    assert (" " + rest)[1..] == rest;
    assert Tokens(" " + rest) == Tokens(rest) && Words(" " + rest) == Words(rest);
    if |t| >= 2 { assert t[..2][0] == t[0]; }
    if |t| >= 3 { assert t[..3][0] == t[0]; }
  }

  /** A quoted string at the end of the command. */
  lemma QuotedToken(s: string)
    ensures Tokens(Quote(s)) == Some([Word(s)])
  {
    hide Escape, Bare;
    var t := Quote(s);
    QuoteIsOneWord(s, "");
    assert t + "" == t;
    if |t| >= 2 { assert t[..2][0] == t[0]; }
    if |t| >= 3 { assert t[..3][0] == t[0]; }
    assert Tokens("") == Some([]) && [Word(s)] + [] == [Word(s)];
  }

  lemma DelimitsBlank()
    ensures Delimits(' ')
  {
  }

  lemma Blank(rest: string)
    ensures Tokens(" " + rest) == Tokens(rest) && Words(" " + rest) == Words(rest)
  {
    hide Bare;
    assert (" " + rest)[1..] == rest;
  }

  lemma Operators(rest: string)
    ensures Tokens("> " + rest) == Then(Op(">"), Tokens(rest))
    ensures Tokens("&& " + rest) == Then(Op("&&"), Tokens(rest))
  {
    hide Bare, Words;
    Blank(rest);
    var write, and := "> " + rest, "&& " + rest;
    assert write[..2][0] == '>' && write[1..] == " " + rest;
    assert and[..2] == "&&" && and[2..] == " " + rest;
  }

  // ---------- the command of Put ----------

  function PutCommand(path: string): string {
    "mkdir -p -- \"$(dirname -- " + Quote(path) + ")\" && cat > " + Quote(path)
  }

  /** The command substitution: whatever the path, dirname gets it as its one operand. */
  lemma Dirname(path: string, rest: string)
    ensures Words("dirname -- " + Quote(path) + ")" + rest) == Some(Inner(["dirname", "--", path], rest))
  {
    hide Words, Quote, Bare;
    var q := Quote(path) + ")" + rest;
    Operand(path, rest);
    PlainToken("--", q);
    assert "--" + " " + q == "-- " + q;
    PlainToken("dirname", "-- " + q);
    assert "dirname" + " " + ("-- " + q) == "dirname -- " + Quote(path) + ")" + rest;
    assert ["dirname"] + (["--"] + [path]) == ["dirname", "--", path];
  }

  lemma Operand(path: string, rest: string)
    ensures Words(Quote(path) + ")" + rest) == Some(Inner([path], rest))
  {
    hide Quote, Bare;
    var close := ")" + rest;
    QuoteIsOneWord(path, close);
    assert Quote(path) + close == Quote(path) + ")" + rest;
    assert close[1..] == rest && (Quote(path) + close)[0] == '\'';
    assert Words(close) == Some(Inner([], rest));
    assert [path] + [] == [path];
  }

  function WriteCommand(path: string): string { "&& " + ("cat" + " " + ("> " + Quote(path))) }

  lemma WriteTokens(path: string)
    ensures Tokens(WriteCommand(path)) == Some([Op("&&"), Word("cat"), Op(">"), Word(path)])
  {
    hide Words, Tokens, Quote;
    QuotedToken(path);
    var q := Quote(path);
    Operators(q);
    PlainToken("cat", "> " + q);
    Operators("cat" + " " + ("> " + q));
    assert [Op("&&")] + ([Word("cat")] + ([Op(">")] + [Word(path)])) == [Op("&&"), Word("cat"), Op(">"), Word(path)];
  }

  function MakeCommand(path: string): string {
    "mkdir" + " " + ("-p" + " " + ("--" + " " + ("\"$(dirname -- " + Quote(path) + ")\" " + WriteCommand(path))))
  }

  const HEAD := "mkdir -p -- \"$(dirname -- "

  lemma Head()
    ensures "mkdir" + " " + ("-p" + " " + ("--" + " " + "\"$(dirname -- ")) == HEAD
  {
    assert "--" + " " + "\"$(dirname -- " == "-- \"$(dirname -- ";
    assert "-p" + " " + "-- \"$(dirname -- " == "-p -- \"$(dirname -- ";
  }

  lemma Prefixed(word: string, a: string, b: string)
    ensures word + " " + (a + b) == (word + " " + a) + b
  {
  }

  lemma CommandParts(path: string)
    ensures MakeCommand(path) == PutCommand(path)
  {
    hide Quote;
    var q := Quote(path);
    var tail := q + ")\" " + WriteCommand(path);
    var open := "\"$(dirname -- ";
    assert open + q + ")\" " + WriteCommand(path) == open + tail;
    Prefixed("--", open, tail);
    Prefixed("-p", "--" + " " + open, tail);
    Prefixed("mkdir", "-p" + " " + ("--" + " " + open), tail);
    Head();
    assert MakeCommand(path) == HEAD + tail;
    CommandTail(path);
    assert PutCommand(path) == HEAD + (q + ")\" && cat > " + q);
  }

  lemma CommandTail(path: string)
    ensures Quote(path) + ")\" " + WriteCommand(path) == Quote(path) + ")\" && cat > " + Quote(path)
  {
    hide Quote;
    var q := Quote(path);
    assert "cat" + " " + ("> " + q) == "cat > " + q;
    assert "&& " + ("cat > " + q) == "&& cat > " + q;
    assert ")\" " + ("&& cat > " + q) == ")\" && cat > " + q;
  }

  /** Whatever the path, the shell runs mkdir on its directory and then writes to exactly that path. */
  lemma PutReachesThePath(path: string)
    ensures Tokens(PutCommand(path)) == Some([
      Word("mkdir"), Word("-p"), Word("--"), Output(["dirname", "--", path]),
      Op("&&"), Word("cat"), Op(">"), Word(path)])
  {
    hide Words, Tokens, Quote, WriteCommand, PutCommand;
    CommandParts(path);
    WriteTokens(path);
    var and := WriteCommand(path);
    OutputToken(path, and);
    var out := "\"$(dirname -- " + Quote(path) + ")\" " + and;
    PlainToken("--", out);
    PlainToken("-p", "--" + " " + out);
    PlainToken("mkdir", "-p" + " " + ("--" + " " + out));
    var write := [Op("&&"), Word("cat"), Op(">"), Word(path)];
    var output := Output(["dirname", "--", path]);
    assert [Word("mkdir")] + ([Word("-p")] + ([Word("--")] + ([output] + write)))
      == [Word("mkdir"), Word("-p"), Word("--"), output, Op("&&"), Word("cat"), Op(">"), Word(path)];
  }

  lemma OutputToken(path: string, rest: string)
    ensures Tokens("\"$(dirname -- " + Quote(path) + ")\" " + rest)
      == Then(Output(["dirname", "--", path]), Tokens(rest))
  {
    hide Words, Quote, Bare, Special, Delimits;
    assert Delimits(' ') by { DelimitsBlank(); }
    Blank(rest);
    var t := "\"$(dirname -- " + Quote(path) + ")\" " + rest;
    Dirname(path, "\" " + rest);
    assert t[3..] == "dirname -- " + Quote(path) + ")" + ("\" " + rest);
    assert t[..3] == "\"$(" && t[..2][0] == '"';
    assert ("\" " + rest)[1..] == " " + rest;
  }
}
