/**
 The shell's command-line parser (user/sh.c): a recursive-descent parser whose only state is a cursor
 into the line, and nulterminate, which ends every recorded string in place.
 */
module ShellTokens {

  /** A byte 0: what the parser reads at the end of the line. */
  const NUL: char := '\0'

  /** The line's characters, with a NUL after the last. */
  function At(line: string, i: nat): char {
    if i < |line| then line[i] else NUL
  }

  predicate IsLine(line: string) {
    forall i :: 0 <= i < |line| ==> line[i] != NUL
  }

  predicate Space(c: char) {
    c == ' ' || c == '\t' || c == '\r' || c == '\n' || c == '\U{b}'
  }

  predicate Symbol(c: char) {
    c == '<' || c == '|' || c == '>' || c == '&' || c == ';' || c == '(' || c == ')'
  }

  /** A character that can be part of a word. */
  predicate Plain(c: char) {
    !Space(c) && !Symbol(c) && c != NUL
  }

  /** Where the white space starting at i ends. */
  function SkipSpace(line: string, i: nat): (r: nat)
    ensures i <= r && (i <= |line| ==> r <= |line|)
    ensures !(r < |line| && Space(line[r]))
    ensures forall k :: i <= k < r ==> k < |line| && Space(line[k])
    decreases |line| - i
  {
    if i < |line| && Space(line[i]) then SkipSpace(line, i + 1) else i
  }

  /** Where the word starting at i ends. */
  function WordEnd(line: string, i: nat): (r: nat)
    ensures i <= r && (i <= |line| ==> r <= |line|)
    ensures !(r < |line| && !Space(line[r]) && !Symbol(line[r]))
    ensures forall k :: i <= k < r ==> k < |line| && !Space(line[k]) && !Symbol(line[k])
    decreases |line| - i
  {
    if i < |line| && !Space(line[i]) && !Symbol(line[i]) then WordEnd(line, i + 1) else i
  }

  /** gettoken's result: its return value, the token's first position and end, and the new cursor. */
  datatype Token = Token(kind: char, q: nat, eq: nat, next: nat)

  /** Kinds other than symbols and NUL: a word, and ">>". */
  const WORD: char := 'a'
  const APPEND: char := '+'

  function GetToken(line: string, s: nat): (t: Token)
    requires s <= |line|
    ensures s <= t.q <= t.eq <= t.next <= |line|
    ensures t.kind != NUL ==> t.q < t.eq
  {
    var q := SkipSpace(line, s);
    var c := At(line, q);
    var kind := if c == NUL || (Symbol(c) && c != '>') then c
                else if c == '>' then (if At(line, q + 1) == '>' then APPEND else '>')
                else WORD;
    var eq := if c == NUL then q
              else if Symbol(c) then (if kind == APPEND then q + 2 else q + 1)
              else WordEnd(line, q);
    Token(kind, q, eq, SkipSpace(line, eq))
  }

  /** peek: skip white space and compare the next character. */
  function Peek(line: string, s: nat, toks: string): bool {
    var c := At(line, SkipSpace(line, s));
    c != NUL && c in toks
  }

  method SkipSpaceLoop(line: string, s: nat) returns (r: nat)
    requires s <= |line|
    ensures r == SkipSpace(line, s)
  {
    r := s;
    while r < |line| && Space(line[r])
      invariant s <= r <= |line|
      invariant SkipSpace(line, s) == SkipSpace(line, r)
    {
      r := r + 1;
    }
  }

  /** gettoken, advancing a cursor. */
  method GetTokenLoop(line: string, s: nat) returns (t: Token)
    requires s <= |line| && IsLine(line)
    ensures t == GetToken(line, s)
  {
    var q := SkipSpaceLoop(line, s);
    var cur, kind := q, At(line, q);
    if kind == NUL {
    } else if kind == '>' {
      cur := cur + 1;
      if At(line, cur) == '>' {
        kind := APPEND;
        cur := cur + 1;
      }
    } else if Symbol(kind) {
      cur := cur + 1;
    } else {
      kind := WORD;
      while cur < |line| && !Space(line[cur]) && !Symbol(line[cur])
        invariant q <= cur <= |line|
        invariant WordEnd(line, q) == WordEnd(line, cur)
      {
        cur := cur + 1;
      }
    }
    var next := SkipSpaceLoop(line, cur);
    t := Token(kind, q, cur, next);
  }

  method PeekLoop(line: string, s: nat, toks: string) returns (next: nat, found: bool)
    requires s <= |line|
    ensures next == SkipSpace(line, s) && found == Peek(line, s, toks)
  {
    next := SkipSpaceLoop(line, s);
    var c := At(line, next);
    found := c != NUL && c in toks;
  }
}

/** The parse functions of user/sh.c.  Where the source exits with a message, the result is Err. */
module ShellParser {
  import opened ShellTokens

  const MAXARGS: nat := 10

  const O_RDONLY: int := 0x000
  const O_WRONLY_CREATE: int := 0x201
  const O_WRONLY_CREATE_TRUNC: int := 0x601

  /** A string in the line: its first position and its end. */
  datatype Word = Word(q: nat, eq: nat)

  datatype RedirTo = RedirTo(file: Word, mode: int, fd: int)

  datatype Cmd =
    | Exec(argv: seq<Word>)
    | Redir(cmd: Cmd, to: RedirTo)
    | Pipe(left: Cmd, right: Cmd)
    | List(left: Cmd, right: Cmd)
    | Back(cmd: Cmd)

  datatype Parsed<+T> = Ok(value: T, pos: nat) | Err(message: string)

  function RedirOf(kind: char, t: Token): RedirTo {
    var file := Word(t.q, t.eq);
    if kind == '<' then RedirTo(file, O_RDONLY, 0)
    else if kind == '>' then RedirTo(file, O_WRONLY_CREATE_TRUNC, 1)
    else RedirTo(file, O_WRONLY_CREATE, 1)
  }

  /** The redirections at the cursor, after those in rs. */
  function ParseRedirs(line: string, s: nat, rs: seq<RedirTo>): (r: Parsed<seq<RedirTo>>)
    requires s <= |line|
    ensures r.Ok? ==> s <= r.pos <= |line|
    decreases |line| - s
  {
    if !Peek(line, s, "<>") then Ok(rs, SkipSpace(line, s))
    else
      var op := GetToken(line, s);
      var file := GetToken(line, op.next);
      if file.kind != WORD then Err("missing file for redirection")
      else ParseRedirs(line, file.next, rs + [RedirOf(op.kind, file)])
  }

  /** cmd with the redirections rs around it, the first innermost. */
  function Wrap(cmd: Cmd, rs: seq<RedirTo>): Cmd
    decreases |rs|
  {
    if rs == [] then cmd else Wrap(Redir(cmd, rs[0]), rs[1..])
  }

  /** The rest of a simple command: argv and rs have been read already. */
  function ParseArgs(line: string, s: nat, argv: seq<Word>, rs: seq<RedirTo>): (r: Parsed<(seq<Word>, seq<RedirTo>)>)
    requires s <= |line|
    ensures r.Ok? ==> s <= r.pos <= |line|
    decreases |line| - s
  {
    if Peek(line, s, "|)&;") then Ok((argv, rs), SkipSpace(line, s))
    else
      var t := GetToken(line, s);
      if t.kind == NUL then Ok((argv, rs), t.next)
      else if t.kind != WORD then Err("syntax")
      else if |argv| + 1 >= MAXARGS then Err("too many args")
      else
        match ParseRedirs(line, t.next, rs)
        case Err(m) => Err(m)
        case Ok(rs', pos) => ParseArgs(line, pos, argv + [Word(t.q, t.eq)], rs')
  }

  function ParseExec(line: string, s: nat): (r: Parsed<Cmd>)
    requires s <= |line|
    ensures r.Ok? ==> s <= r.pos <= |line|
    decreases |line| - s, 1
  {
    if Peek(line, s, "(") then ParseBlock(line, s)
    else
      match ParseRedirs(line, s, [])
      case Err(m) => Err(m)
      case Ok(rs, pos) =>
        match ParseArgs(line, pos, [], rs)
        case Err(m) => Err(m)
        case Ok((argv, rs'), pos') => Ok(Wrap(Exec(argv), rs'), pos')
  }

  function ParseBlock(line: string, s: nat): (r: Parsed<Cmd>)
    requires s <= |line| && Peek(line, s, "(")
    ensures r.Ok? ==> s <= r.pos <= |line|
    decreases |line| - s, 0
  {
    match ParseLine(line, GetToken(line, s).next)
    case Err(m) => Err(m)
    case Ok(cmd, pos) =>
      if !Peek(line, pos, ")") then Err("syntax - missing )")
      else
        match ParseRedirs(line, GetToken(line, pos).next, [])
        case Err(m) => Err(m)
        case Ok(rs, pos') => Ok(Wrap(cmd, rs), pos')
  }

  function ParsePipe(line: string, s: nat): (r: Parsed<Cmd>)
    requires s <= |line|
    ensures r.Ok? ==> s <= r.pos <= |line|
    decreases |line| - s, 2
  {
    match ParseExec(line, s)
    case Err(m) => Err(m)
    case Ok(cmd, pos) =>
      if !Peek(line, pos, "|") then Ok(cmd, SkipSpace(line, pos))
      else
        match ParsePipe(line, GetToken(line, pos).next)
        case Err(m) => Err(m)
        case Ok(right, pos') => Ok(Pipe(cmd, right), pos')
  }

  /** The trailing "&"s of a pipeline. */
  function ParseBacks(line: string, s: nat, cmd: Cmd): (r: (Cmd, nat))
    requires s <= |line|
    ensures s <= r.1 <= |line|
    decreases |line| - s
  {
    if Peek(line, s, "&") then ParseBacks(line, GetToken(line, s).next, Back(cmd))
    else (cmd, SkipSpace(line, s))
  }

  function ParseLine(line: string, s: nat): (r: Parsed<Cmd>)
    requires s <= |line|
    ensures r.Ok? ==> s <= r.pos <= |line|
    decreases |line| - s, 3
  {
    match ParsePipe(line, s)
    case Err(m) => Err(m)
    case Ok(first, p) =>
      var (cmd, pos) := ParseBacks(line, p, first);
      if !Peek(line, pos, ";") then Ok(cmd, SkipSpace(line, pos))
      else
        match ParseLine(line, GetToken(line, pos).next)
        case Err(m) => Err(m)
        case Ok(right, pos') => Ok(List(cmd, right), pos')
  }

  /** Parse a whole line: an error, or a command for all of it. */
  function ParseCmd(line: string): (r: Parsed<Cmd>)
    ensures r.Ok? ==> r.pos == |line|
  {
    match ParseLine(line, 0)
    case Err(m) => Err(m)
    case Ok(cmd, p) =>
      var pos := SkipSpace(line, p);
      if pos != |line| then Err("syntax") else Ok(cmd, pos)
  }

  // ----- the loops of the source compute these functions

  /** Skipping white space first changes nothing that follows. */
  lemma SkipFirst(line: string, s: nat)
    requires s <= |line|
    ensures var s' := SkipSpace(line, s);
            && SkipSpace(line, s') == s'
            && GetToken(line, s') == GetToken(line, s)
            && forall toks :: Peek(line, s', toks) == Peek(line, s, toks)
  {
  }

  lemma PeekIsToken(line: string, s: nat, toks: string)
    requires s <= |line| && Peek(line, s, toks)
    ensures GetToken(line, s).kind != NUL && s < GetToken(line, s).next
  {
  }

  method ParseRedirsLoop(line: string, s: nat, before: seq<RedirTo>) returns (r: Parsed<seq<RedirTo>>)
    requires s <= |line| && IsLine(line)
    ensures r == ParseRedirs(line, s, before)
  {
    hide SkipSpace, GetToken, Peek, RedirOf, IsLine;
    var rs, cur := before, s;
    var found;
    cur, found := PeekLoop(line, cur, "<>");
    SkipFirst(line, s);
    while found
      invariant cur <= |line| && found == Peek(line, cur, "<>") && cur == SkipSpace(line, cur)
      invariant ParseRedirs(line, s, before) == ParseRedirs(line, cur, rs)
      decreases |line| - cur
    {
      var op := GetTokenLoop(line, cur);
      var file := GetTokenLoop(line, op.next);
      if file.kind != WORD {
        return Err("missing file for redirection");
      }
      rs := rs + [RedirOf(op.kind, file)];
      cur, found := PeekLoop(line, file.next, "<>");
      SkipFirst(line, file.next);
    }
    return Ok(rs, cur);
  }

  method ParseArgsLoop(line: string, s: nat, before: seq<RedirTo>) returns (r: Parsed<(seq<Word>, seq<RedirTo>)>)
    requires s <= |line| && IsLine(line)
    ensures r == ParseArgs(line, s, [], before)
  {
    hide SkipSpace, GetToken, Peek, ParseRedirs, IsLine;
    var argv: seq<Word>, rs := [], before;
    var cur, found := PeekLoop(line, s, "|)&;");
    SkipFirst(line, s);
    while !found
      invariant cur <= |line| && found == Peek(line, cur, "|)&;") && cur == SkipSpace(line, cur)
      invariant ParseArgs(line, s, [], before) == ParseArgs(line, cur, argv, rs)
      decreases |line| - cur
    {
      var t := GetTokenLoop(line, cur);
      if t.kind == NUL {
        return Ok((argv, rs), t.next);
      }
      if t.kind != WORD {
        return Err("syntax");
      }
      if |argv| + 1 >= MAXARGS {
        return Err("too many args");
      }
      argv := argv + [Word(t.q, t.eq)];
      var more := ParseRedirsLoop(line, t.next, rs);
      match more {
        case Err(m) => return Err(m);
        case Ok(rs', pos) =>
          rs := rs';
          cur, found := PeekLoop(line, pos, "|)&;");
          SkipFirst(line, pos);
      }
    }
    return Ok((argv, rs), cur);
  }

  method ParseBacksLoop(line: string, s: nat, first: Cmd) returns (cmd: Cmd, cur: nat)
    requires s <= |line| && IsLine(line)
    ensures (cmd, cur) == ParseBacks(line, s, first)
  {
    hide SkipSpace, GetToken, Peek, IsLine;
    cmd := first;
    var found;
    cur, found := PeekLoop(line, s, "&");
    SkipFirst(line, s);
    while found
      invariant cur <= |line| && found == Peek(line, cur, "&") && cur == SkipSpace(line, cur)
      invariant ParseBacks(line, s, first) == ParseBacks(line, cur, cmd)
      decreases |line| - cur
    {
      var t := GetTokenLoop(line, cur);
      PeekIsToken(line, cur, "&");
      cmd := Back(cmd);
      cur, found := PeekLoop(line, t.next, "&");
      SkipFirst(line, t.next);
    }
  }
}

/** Printing a command tree with every subcommand in parentheses, and reading it back. */
module ShellRoundTrip {
  import opened ShellTokens
  import opened ShellParser

  /** Neither: a mode and a file descriptor that no operator stands for. */
  datatype How = Input | Output | Appending | Neither

  /** A command as its user means it: strings, not positions. */
  datatype Tree =
    | TExec(words: seq<string>)
    | TRedir(cmd: Tree, how: How, file: string)
    | TPipe(left: Tree, right: Tree)
    | TList(left: Tree, right: Tree)
    | TBack(cmd: Tree)

  predicate IsWord(w: string) {
    |w| > 0 && forall i :: 0 <= i < |w| ==> Plain(w[i])
  }

  predicate Printable(t: Tree) {
    match t
    case TExec(ws) => |ws| < MAXARGS && forall i :: 0 <= i < |ws| ==> IsWord(ws[i])
    case TRedir(c, how, f) => Printable(c) && IsWord(f) && how != Neither
    case TPipe(l, r) => Printable(l) && Printable(r)
    case TList(l, r) => Printable(l) && Printable(r)
    case TBack(c) => Printable(c)
  }

  function Op(how: How): string {
    match how
    case Input => "<"
    case Output => ">"
    case Appending => ">>"
    case Neither => ""
  }

  function Words(ws: seq<string>): string {
    if ws == [] then "" else ws[0] + " " + Words(ws[1..])
  }

  function Body(t: Tree): string
    decreases t, 0
  {
    match t
    case TExec(ws) => Words(ws)
    case TRedir(c, how, f) => Print(c) + Op(how) + f
    case TPipe(l, r) => Print(l) + "|" + Print(r)
    case TList(l, r) => Print(l) + ";" + Print(r)
    case TBack(c) => Print(c) + "&"
  }

  function Print(t: Tree): string
    decreases t, 1
  {
    "(" + Body(t) + ")"
  }

  /** The string a word of the parse stands for. */
  function Text(line: string, w: Word): string {
    if w.q <= w.eq <= |line| then line[w.q..w.eq] else ""
  }

  function Texts(line: string, ws: seq<Word>): (r: seq<string>)
    ensures |r| == |ws|
  {
    if ws == [] then [] else Texts(line, ws[..|ws| - 1]) + [Text(line, ws[|ws| - 1])]
  }

  function HowOf(to: RedirTo): How {
    if to.mode == O_RDONLY && to.fd == 0 then Input
    else if to.mode == O_WRONLY_CREATE_TRUNC && to.fd == 1 then Output
    else if to.mode == O_WRONLY_CREATE && to.fd == 1 then Appending
    else Neither
  }

  /** The command a parse result stands for. */
  function Meaning(line: string, c: Cmd): Tree {
    match c
    case Exec(argv) => TExec(Texts(line, argv))
    case Redir(cmd, to) => TRedir(Meaning(line, cmd), HowOf(to), Text(line, to.file))
    case Pipe(l, r) => TPipe(Meaning(line, l), Meaning(line, r))
    case List(l, r) => TList(Meaning(line, l), Meaning(line, r))
    case Back(cmd) => TBack(Meaning(line, cmd))
  }

  /** s appears in the line at pos. */
  ghost predicate Has(line: string, pos: nat, s: string) {
    pos + |s| <= |line| && line[pos..pos + |s|] == s
  }

  lemma HasSplit(line: string, pos: nat, a: string, b: string)
    requires Has(line, pos, a + b)
    ensures Has(line, pos, a) && Has(line, pos + |a|, b)
  {
    var n := |a + b|;
    assert line[pos..pos + n][..|a|] == a;
    assert line[pos..pos + n][|a|..] == b;
    assert line[pos..pos + |a|] == line[pos..pos + n][..|a|];
    assert line[pos + |a|..pos + n] == line[pos..pos + n][|a|..];
  }

  /** The cursor rests at e: not on white space. */
  ghost predicate Rests(line: string, e: nat) {
    e <= |line| && !Space(At(line, e))
  }

  lemma RestsSkip(line: string, e: nat)
    requires Rests(line, e)
    ensures SkipSpace(line, e) == e
    ensures forall toks :: Peek(line, e, toks) <==> At(line, e) != NUL && At(line, e) in toks
  {
  }

  /** A one-character symbol followed by something other than white space. */
  lemma SymbolToken(line: string, e: nat, c: char)
    requires e < |line| && line[e] == c && Symbol(c) && c != '>' && Rests(line, e + 1)
    ensures GetToken(line, e) == Token(c, e, e + 1, e + 1)
  {
    RestsSkip(line, e + 1);
  }

  lemma {:induction false} WordEndIs(line: string, pos: nat, i: nat, e: nat)
    requires pos <= i <= e <= |line|
    requires forall k :: pos <= k < e ==> Plain(line[k])
    requires e == |line| || !Plain(line[e])
    requires e < |line| ==> line[e] != NUL
    ensures WordEnd(line, i) == e
    decreases e - i
  {
    if i < e {
      WordEndIs(line, pos, i + 1, e);
    }
  }

  lemma WordToken(line: string, pos: nat, w: string)
    requires IsWord(w) && Has(line, pos, w)
    requires pos + |w| == |line| || (!Plain(line[pos + |w|]) && line[pos + |w|] != NUL)
    ensures GetToken(line, pos) == Token(WORD, pos, pos + |w|, SkipSpace(line, pos + |w|))
    ensures Text(line, Word(pos, pos + |w|)) == w
  {
    var e := pos + |w|;
    forall k | pos <= k < e
      ensures Plain(line[k])
    {
      assert line[k] == line[pos..e][k - pos] == w[k - pos];
    }
    WordEndIs(line, pos, pos, e);
  }

  /** The end of a command: the end of the line or a closing parenthesis. */
  ghost predicate Stop(line: string, e: nat) {
    e == |line| || (e < |line| && line[e] == ')')
  }

  /** A command that ends at a Stop is a whole pipeline and a whole line. */
  lemma StopEndsLine(line: string, pos: nat, e: nat, c: Cmd)
    requires pos <= e <= |line| && Stop(line, e) && ParsePipe(line, pos) == Ok(c, e)
    ensures ParseLine(line, pos) == Ok(c, e)
  {
    RestsSkip(line, e);
  }

  lemma StopEndsPipe(line: string, pos: nat, e: nat, c: Cmd)
    requires pos <= e <= |line| && (Stop(line, e) || (e < |line| && line[e] in "&;"))
             && ParseExec(line, pos) == Ok(c, e)
    ensures ParsePipe(line, pos) == Ok(c, e)
  {
    RestsSkip(line, e);
  }

  // ----- simple commands

  lemma WordsRest(line: string, pos: nat, ws: seq<string>)
    requires Has(line, pos, Words(ws)) && (forall i :: 0 <= i < |ws| ==> IsWord(ws[i])) && Stop(line, pos + |Words(ws)|)
    ensures Rests(line, pos)
    ensures pos < |line| ==> line[pos] != '<' && line[pos] != '>' && line[pos] != '('
  {
    if ws != [] {
      assert Words(ws)[0] == ws[0][0];
      assert line[pos] == line[pos..pos + |Words(ws)|][0];
    }
  }

  lemma TextsSnoc(line: string, argv: seq<Word>, w: Word)
    ensures Texts(line, argv + [w]) == Texts(line, argv) + [Text(line, w)]
  {
    assert (argv + [w])[..|argv|] == argv;
  }

  /** One word of a simple command. */
  lemma OneWord(line: string, pos: nat, w: string, rest: string)
    requires IsWord(w) && Has(line, pos, w + " " + rest)
    ensures Has(line, pos + |w| + 1, rest) && Has(line, pos, w)
    ensures pos + |w| < |line| && line[pos + |w|] == ' ' && Plain(line[pos])
  {
    HasSplit(line, pos, w + " ", rest);
    HasSplit(line, pos, w, " ");
    assert line[pos + |w|..pos + |w| + 1][0] == ' ';
    assert line[pos] == line[pos..pos + |w|][0] == w[0];
  }

  /** ParseArgs reads one word when a word is there. */
  lemma ArgsStep(line: string, pos: nat, t: Token, argv: seq<Word>)
    requires pos <= |line| && t == GetToken(line, pos) && t.kind == WORD && |argv| + 1 < MAXARGS
    requires !Peek(line, pos, "|)&;") && ParseRedirs(line, t.next, []) == Ok([], t.next)
    ensures ParseArgs(line, pos, argv, []) == ParseArgs(line, t.next, argv + [Word(t.q, t.eq)], [])
  {
    hide Peek, GetToken, ParseRedirs;
  }

  lemma {:induction false} WordStep(line: string, pos: nat, ws: seq<string>, argv: seq<Word>)
    requires ws != [] && Has(line, pos, Words(ws)) && (forall i :: 0 <= i < |ws| ==> IsWord(ws[i]))
    requires |argv| + 1 < MAXARGS && Stop(line, pos + |Words(ws)|)
    ensures var next := pos + |ws[0]| + 1;
            && Has(line, next, Words(ws[1..])) && next + |Words(ws[1..])| == pos + |Words(ws)|
            && ParseArgs(line, pos, argv, []) == ParseArgs(line, next, argv + [Word(pos, pos + |ws[0]|)], [])
            && Text(line, Word(pos, pos + |ws[0]|)) == ws[0]
  {
    hide GetToken, SkipSpace, Peek, ParseRedirs, ParseArgs, Text, Stop, IsWord, Plain, Rests;
    var w, rest, next := ws[0], Words(ws[1..]), pos + |ws[0]| + 1;
    assert IsWord(w) && Words(ws) == w + " " + rest;
    OneWord(line, pos, w, rest);
    SpaceNotPlain();
    WordToken(line, pos, w);
    WordsRest(line, next, ws[1..]);
    SpaceSkip(line, pos + |w|);
    NoStop(line, pos);
    NoRedirs(line, next);
    ArgsStep(line, pos, GetToken(line, pos), argv);
  }

  lemma SpaceNotPlain()
    ensures !Plain(' ')
  {
  }

  lemma SpaceSkip(line: string, e: nat)
    requires e < |line| && line[e] == ' ' && Rests(line, e + 1)
    ensures SkipSpace(line, e) == e + 1
  {
    RestsSkip(line, e + 1);
  }

  lemma NoStop(line: string, pos: nat)
    requires pos < |line| && Plain(line[pos])
    ensures !Peek(line, pos, "|)&;")
  {
  }

  lemma NoRedirs(line: string, e: nat)
    requires Rests(line, e) && (e < |line| ==> line[e] != '<' && line[e] != '>')
    ensures e <= |line| && ParseRedirs(line, e, []) == Ok([], e)
  {
    RestsSkip(line, e);
  }

  lemma ArgsStop(line: string, e: nat, argv: seq<Word>)
    requires e <= |line| && Stop(line, e)
    ensures ParseArgs(line, e, argv, []) == Ok((argv, []), e)
  {
    RestsSkip(line, e);
  }

  lemma {:induction false} ArgsParse(line: string, pos: nat, ws: seq<string>, argv: seq<Word>) returns (all: seq<Word>)
    requires Has(line, pos, Words(ws)) && (forall i :: 0 <= i < |ws| ==> IsWord(ws[i]))
    requires |argv| + |ws| < MAXARGS && Stop(line, pos + |Words(ws)|)
    ensures ParseArgs(line, pos, argv, []) == Ok((all, []), pos + |Words(ws)|)
    ensures Texts(line, all) == Texts(line, argv) + ws
    decreases |ws|
  {
    hide ParseArgs, IsWord, Text, Stop;
    if ws == [] {
      ArgsStop(line, pos, argv);
      all := argv;
    } else {
      WordStep(line, pos, ws, argv);
      var word := Word(pos, pos + |ws[0]|);
      all := ArgsParse(line, pos + |ws[0]| + 1, ws[1..], argv + [word]);
      TextsSnoc(line, argv, word);
      assert Texts(line, argv) + [ws[0]] + ws[1..] == Texts(line, argv) + ws;
    }
  }

  lemma ExecParses(line: string, pos: nat, ws: seq<string>) returns (c: Cmd)
    requires Has(line, pos, Words(ws)) && (forall i :: 0 <= i < |ws| ==> IsWord(ws[i]))
    requires |ws| < MAXARGS && Stop(line, pos + |Words(ws)|)
    ensures ParseExec(line, pos) == Ok(c, pos + |Words(ws)|) && Meaning(line, c) == TExec(ws)
  {
    hide ParseArgs, ParseRedirs, Peek, IsWord, Has, Words, Stop;
    NoBlock(line, pos, ws);
    var all := ArgsParse(line, pos, ws, []);
    assert Texts(line, []) + ws == ws;
    c := Exec(all);
  }

  lemma NoBlock(line: string, pos: nat, ws: seq<string>)
    requires Has(line, pos, Words(ws)) && (forall i :: 0 <= i < |ws| ==> IsWord(ws[i])) && Stop(line, pos + |Words(ws)|)
    ensures pos <= |line| && !Peek(line, pos, "(") && ParseRedirs(line, pos, []) == Ok([], pos)
  {
    WordsRest(line, pos, ws);
    RestsSkip(line, pos);
  }

  /** One word more than there is room for. */
  lemma {:induction false} ArgsTooMany(line: string, pos: nat, ws: seq<string>, argv: seq<Word>)
    requires Has(line, pos, Words(ws)) && (forall i :: 0 <= i < |ws| ==> IsWord(ws[i])) && Stop(line, pos + |Words(ws)|)
    requires |argv| < MAXARGS <= |argv| + |ws|
    ensures pos <= |line| && ParseArgs(line, pos, argv, []) == Err("too many args")
    decreases |ws|
  {
    hide ParseArgs, IsWord, Text, Stop;
    if |argv| + 1 < MAXARGS {
      WordStep(line, pos, ws, argv);
      ArgsTooMany(line, pos + |ws[0]| + 1, ws[1..], argv + [Word(pos, pos + |ws[0]|)]);
    } else {
      NoRoom(line, pos, ws, argv);
    }
  }

  lemma NoRoom(line: string, pos: nat, ws: seq<string>, argv: seq<Word>)
    requires ws != [] && Has(line, pos, Words(ws)) && IsWord(ws[0]) && |argv| + 1 >= MAXARGS
    ensures pos <= |line| && ParseArgs(line, pos, argv, []) == Err("too many args")
  {
    hide GetToken, Peek, ParseRedirs, Plain;
    var w, rest := ws[0], Words(ws[1..]);
    assert Words(ws) == w + " " + rest;
    OneWord(line, pos, w, rest);
    SpaceNotPlain();
    WordToken(line, pos, w);
    NoStop(line, pos);
  }

  /** A simple command of MAXARGS words or more is an error. */
  lemma TooManyWords(ws: seq<string>)
    requires |ws| >= MAXARGS && forall i :: 0 <= i < |ws| ==> IsWord(ws[i])
    ensures ParseCmd(Words(ws)) == Err("too many args")
  {
    hide ParseArgs, ParseRedirs, Peek, IsWord, Words;
    var line := Words(ws);
    assert line[0..0 + |line|] == line;
    NoBlock(line, 0, ws);
    ArgsTooMany(line, 0, ws, []);
    assert ParseExec(line, 0) == Err("too many args");
    assert ParsePipe(line, 0) == Err("too many args");
    assert ParseLine(line, 0) == Err("too many args");
  }

  // ----- redirections

  lemma RedirOnce(line: string, pos: nat, how: How, f: string) returns (to: RedirTo)
    requires how != Neither && IsWord(f) && Has(line, pos, Op(how) + f) && Stop(line, pos + |Op(how)| + |f|)
    ensures ParseRedirs(line, pos, []) == Ok([to], pos + |Op(how)| + |f|)
    ensures HowOf(to) == how && Text(line, to.file) == f
  {
    hide GetToken, ParseRedirs, Peek, Op;
    var q := pos + |Op(how)|;
    var e := q + |f|;
    HasSplit(line, pos, Op(how), f);
    assert line[q] == line[q..e][0] == f[0];
    OpToken(line, pos, how);
    FileToken(line, q, f);
    to := RedirOf(GetToken(line, pos).kind, GetToken(line, q));
    RedirsStep(line, pos, q, e, to);
  }

  lemma FileToken(line: string, q: nat, f: string)
    requires IsWord(f) && Has(line, q, f) && Stop(line, q + |f|)
    ensures var tok := GetToken(line, q);
            && tok.kind == WORD && tok.next == q + |f| && Text(line, Word(tok.q, tok.eq)) == f
  {
    WordToken(line, q, f);
    RestsSkip(line, q + |f|);
  }

  lemma OpToken(line: string, pos: nat, how: How)
    requires how != Neither && Has(line, pos, Op(how)) && pos + |Op(how)| < |line| && Plain(line[pos + |Op(how)|])
    ensures Peek(line, pos, "<>") && GetToken(line, pos).next == pos + |Op(how)|
    ensures GetToken(line, pos).kind == match how case Input => '<' case Output => '>' case _ => APPEND
  {
    var q := pos + |Op(how)|;
    assert line[pos] == line[pos..q][0] == Op(how)[0];
    if how == Appending {
      assert line[pos + 1] == line[pos..q][1] == '>';
    }
    RestsSkip(line, pos);
    RestsSkip(line, q);
  }

  lemma RedirsStep(line: string, pos: nat, q: nat, e: nat, to: RedirTo)
    requires pos <= |line| && Peek(line, pos, "<>") && GetToken(line, pos).next == q
    requires GetToken(line, q).kind == WORD && GetToken(line, q).next == e && Stop(line, e)
    requires to == RedirOf(GetToken(line, pos).kind, GetToken(line, q))
    ensures ParseRedirs(line, pos, []) == Ok([to], e)
  {
    hide GetToken;
    RestsSkip(line, e);
    assert ParseRedirs(line, e, [to]) == Ok([to], e);
    assert [] + [to] == [to];
  }

  // ----- subcommands

  lemma BodyRests(line: string, pos: nat, t: Tree)
    requires Printable(t) && Has(line, pos, Body(t)) && Stop(line, pos + |Body(t)|)
    ensures Rests(line, pos)
  {
    if t.TExec? {
      WordsRest(line, pos, t.words);
    } else {
      assert Body(t)[0] == '(';
      assert line[pos] == line[pos..pos + |Body(t)|][0];
    }
  }

  /** Where the parts of a parenthesised command are. */
  lemma PrintParts(line: string, pos: nat, t: Tree)
    requires Has(line, pos, Print(t))
    ensures Has(line, pos + 1, Body(t)) && pos + 1 + |Body(t)| < |line|
    ensures line[pos] == '(' && line[pos + 1 + |Body(t)|] == ')'
    ensures |Print(t)| == |Body(t)| + 2
  {
    var b := Body(t);
    HasSplit(line, pos, "(" + b, ")");
    HasSplit(line, pos, "(", b);
    assert line[pos] == line[pos..pos + 1][0];
    var e := pos + 1 + |b|;
    assert line[e] == line[e..e + 1][0];
  }

  lemma BlockTokens(line: string, pos: nat, t: Tree)
    requires Printable(t) && Has(line, pos, Print(t)) && Rests(line, pos + |Print(t)|)
    ensures var e := pos + |Print(t)|;
            && Peek(line, pos, "(") && GetToken(line, pos).next == pos + 1
            && Has(line, pos + 1, Body(t)) && pos + 1 + |Body(t)| == e - 1 && Stop(line, e - 1)
            && Peek(line, e - 1, ")") && GetToken(line, e - 1).next == e
  {
    var e := pos + |Print(t)|;
    PrintParts(line, pos, t);
    BodyRests(line, pos + 1, t);
    RestsSkip(line, pos);
    RestsSkip(line, e - 1);
    SymbolToken(line, pos, '(');
    SymbolToken(line, e - 1, ')');
  }

  /** A parenthesised command parses as its body, then whatever redirections follow. */
  lemma BlockParses(line: string, pos: nat, t: Tree, rs: seq<RedirTo>, e': nat) returns (c: Cmd)
    requires Printable(t) && Has(line, pos, Print(t)) && Rests(line, pos + |Print(t)|)
    requires ParseRedirs(line, pos + |Print(t)|, []) == Ok(rs, e')
    ensures ParseExec(line, pos) == Ok(Wrap(c, rs), e') && Meaning(line, c) == t
    decreases t, 1
  {
    hide Has, Printable, Rests, ParseExec, ParseRedirs, ParseLine, Peek, GetToken, Stop, Body, Meaning;
    BlockTokens(line, pos, t);
    c := BodyParses(line, pos + 1, t);
    BlockAssemble(line, pos, pos + |Print(t)|, c, rs, e');
  }

  lemma BlockAssemble(line: string, pos: nat, e: nat, c: Cmd, rs: seq<RedirTo>, e': nat)
    requires pos < e <= |line| && Peek(line, pos, "(") && GetToken(line, pos).next == pos + 1
    requires ParseLine(line, pos + 1) == Ok(c, e - 1)
    requires Peek(line, e - 1, ")") && GetToken(line, e - 1).next == e
    requires ParseRedirs(line, e, []) == Ok(rs, e')
    ensures ParseExec(line, pos) == Ok(Wrap(c, rs), e')
  {
    hide Peek, GetToken, ParseRedirs, ParseLine, Wrap;
  }

  /** A parenthesised command with no redirection after it. */
  lemma BlockAlone(line: string, pos: nat, t: Tree) returns (c: Cmd)
    requires Printable(t) && Has(line, pos, Print(t)) && Rests(line, pos + |Print(t)|)
    requires At(line, pos + |Print(t)|) != '<' && At(line, pos + |Print(t)|) != '>'
    ensures ParseExec(line, pos) == Ok(c, pos + |Print(t)|) && Meaning(line, c) == t
    decreases t, 2
  {
    var e := pos + |Print(t)|;
    RestsSkip(line, e);
    assert ParseRedirs(line, e, []) == Ok([], e);
    c := BlockParses(line, pos, t, [], e);
  }

  lemma BodyParses(line: string, pos: nat, t: Tree) returns (c: Cmd)
    requires Printable(t) && Has(line, pos, Body(t)) && Stop(line, pos + |Body(t)|)
    ensures ParseLine(line, pos) == Ok(c, pos + |Body(t)|) && Meaning(line, c) == t
    decreases t, 0
  {
    var e := pos + |Body(t)|;
    match t
    case TExec(ws) =>
      c := ExecParses(line, pos, ws);
      StopEndsPipe(line, pos, e, c);
      StopEndsLine(line, pos, e, c);
    case TRedir(cmd, how, f) =>
      c := RedirBody(line, pos, t);
    case TPipe(l, r) =>
      c := PipeBody(line, pos, t);
    case TList(l, r) =>
      c := ListBody(line, pos, t);
    case TBack(cmd) =>
      c := BackBody(line, pos, t);
  }

  lemma RedirBody(line: string, pos: nat, t: Tree) returns (c: Cmd)
    requires t.TRedir? && Printable(t) && Has(line, pos, Body(t)) && Stop(line, pos + |Body(t)|)
    ensures ParseLine(line, pos) == Ok(c, pos + |Body(t)|) && Meaning(line, c) == t
    decreases t.cmd, 3
  {
    hide ParseExec, ParsePipe, ParseLine, ParseRedirs, GetToken, SkipSpace, Peek;
    var e, mid := pos + |Body(t)|, pos + |Print(t.cmd)|;
    assert Body(t) == Print(t.cmd) + (Op(t.how) + t.file);
    HasSplit(line, pos, Print(t.cmd), Op(t.how) + t.file);
    assert line[mid] == line[mid..mid + |Op(t.how) + t.file|][0] == Op(t.how)[0];
    var to := RedirOnce(line, mid, t.how, t.file);
    var inner := BlockParses(line, pos, t.cmd, [to], e);
    c := Redir(inner, to);
    assert [to][1..] == [];
    assert Wrap(inner, [to]) == c;
    StopEndsPipe(line, pos, e, c);
    StopEndsLine(line, pos, e, c);
  }

  /** Where the parts of an infix command are. */
  lemma InfixParts(line: string, pos: nat, a: string, op: char, b: string)
    requires Has(line, pos, a + [op] + b) && |b| > 0 && b[0] == '(' && Symbol(op) && op != '>'
    ensures Has(line, pos, a) && Has(line, pos + |a| + 1, b)
    ensures pos + |a| < |line| && line[pos + |a|] == op && Rests(line, pos + |a|)
    ensures GetToken(line, pos + |a|).next == pos + |a| + 1
  {
    HasSplit(line, pos, a + [op], b);
    HasSplit(line, pos, a, [op]);
    var m := pos + |a|;
    assert line[m] == line[m..m + 1][0];
    assert line[m + 1] == line[m + 1..m + 1 + |b|][0];
    SymbolToken(line, m, op);
  }

  lemma PipeBody(line: string, pos: nat, t: Tree) returns (c: Cmd)
    requires t.TPipe? && Printable(t) && Has(line, pos, Body(t)) && Stop(line, pos + |Body(t)|)
    ensures ParseLine(line, pos) == Ok(c, pos + |Body(t)|) && Meaning(line, c) == t
    decreases t, -1
  {
    hide ParseExec, ParsePipe, ParseLine, ParseRedirs, GetToken, SkipSpace, Peek;
    var e, mid := pos + |Body(t)|, pos + |Print(t.left)|;
    InfixParts(line, pos, Print(t.left), '|', Print(t.right));
    var l := BlockAlone(line, pos, t.left);
    var r := BlockAlone(line, mid + 1, t.right);
    StopEndsPipe(line, mid + 1, e, r);
    RestsSkip(line, mid);
    c := Pipe(l, r);
    PipeAssemble(line, pos, mid, e, l, r);
    StopEndsLine(line, pos, e, c);
  }

  lemma PipeAssemble(line: string, pos: nat, mid: nat, e: nat, l: Cmd, r: Cmd)
    requires pos <= mid < |line| && ParseExec(line, pos) == Ok(l, mid) && Peek(line, mid, "|")
    requires GetToken(line, mid).next == mid + 1 && ParsePipe(line, mid + 1) == Ok(r, e)
    ensures ParsePipe(line, pos) == Ok(Pipe(l, r), e)
  {
    hide Peek, GetToken, ParseExec;
  }

  lemma ListBody(line: string, pos: nat, t: Tree) returns (c: Cmd)
    requires t.TList? && Printable(t) && Has(line, pos, Body(t)) && Stop(line, pos + |Body(t)|)
    ensures ParseLine(line, pos) == Ok(c, pos + |Body(t)|) && Meaning(line, c) == t
    decreases t, -1
  {
    hide ParseExec, ParsePipe, ParseLine, ParseRedirs, GetToken, SkipSpace, Peek;
    var e, mid := pos + |Body(t)|, pos + |Print(t.left)|;
    InfixParts(line, pos, Print(t.left), ';', Print(t.right));
    var l := BlockAlone(line, pos, t.left);
    var r := BlockAlone(line, mid + 1, t.right);
    StopEndsPipe(line, mid + 1, e, r);
    StopEndsLine(line, mid + 1, e, r);
    StopEndsPipe(line, pos, mid, l);
    RestsSkip(line, mid);
    c := List(l, r);
    LineAssemble(line, pos, mid, e, l, r);
  }

  lemma LineAssemble(line: string, pos: nat, mid: nat, e: nat, l: Cmd, r: Cmd)
    requires pos <= mid < |line| && ParsePipe(line, pos) == Ok(l, mid) && Peek(line, mid, ";") && !Peek(line, mid, "&")
    requires SkipSpace(line, mid) == mid
    requires GetToken(line, mid).next == mid + 1 && ParseLine(line, mid + 1) == Ok(r, e)
    ensures ParseLine(line, pos) == Ok(List(l, r), e)
  {
    hide Peek, GetToken, ParsePipe, SkipSpace;
    assert ParseBacks(line, mid, l) == (l, mid);
  }

  lemma BackBody(line: string, pos: nat, t: Tree) returns (c: Cmd)
    requires t.TBack? && Printable(t) && Has(line, pos, Body(t)) && Stop(line, pos + |Body(t)|)
    ensures ParseLine(line, pos) == Ok(c, pos + |Body(t)|) && Meaning(line, c) == t
    decreases t, -1
  {
    hide ParseExec, ParsePipe, ParseLine, ParseRedirs, GetToken, SkipSpace, Peek;
    var e, mid := pos + |Body(t)|, pos + |Print(t.cmd)|;
    HasSplit(line, pos, Print(t.cmd), "&");
    assert line[mid] == line[mid..mid + 1][0];
    var inner := BlockAlone(line, pos, t.cmd);
    StopEndsPipe(line, pos, mid, inner);
    SymbolToken(line, mid, '&');
    RestsSkip(line, mid);
    RestsSkip(line, e);
    c := Back(inner);
    BackAssemble(line, pos, mid, e, inner);
  }

  lemma BackAssemble(line: string, pos: nat, mid: nat, e: nat, l: Cmd)
    requires pos <= mid < |line| && ParsePipe(line, pos) == Ok(l, mid) && Peek(line, mid, "&")
    requires GetToken(line, mid).next == e && !Peek(line, e, "&") && !Peek(line, e, ";")
    requires SkipSpace(line, e) == e
    ensures ParseLine(line, pos) == Ok(Back(l), e)
  {
    hide Peek, GetToken, ParsePipe, SkipSpace;
    assert ParseBacks(line, mid, l) == (Back(l), e);
  }

  /** Reading back a printed command gives that command, and nothing is left over. */
  lemma RoundTrip(t: Tree) returns (c: Cmd)
    requires Printable(t)
    ensures ParseCmd(Print(t)) == Ok(c, |Print(t)|) && Meaning(Print(t), c) == t
  {
    var line := Print(t);
    var e := |line|;
    assert line[0..0 + |line|] == line;
    c := BlockAlone(line, 0, t);
    StopEndsPipe(line, 0, e, c);
    StopEndsLine(line, 0, e, c);
    RestsSkip(line, e);
  }
}

/** nulterminate: ending every recorded string in place. */
module ShellStrings {
  import opened ShellTokens
  import opened ShellParser

  /** A maximal run of word characters. */
  ghost predicate GoodWord(line: string, w: Word) {
    && w.q < w.eq <= |line|
    && (forall k :: w.q <= k < w.eq ==> Plain(line[k]))
    && (w.eq < |line| ==> !Plain(line[w.eq]))
  }

  ghost predicate GoodRedirs(line: string, rs: seq<RedirTo>) {
    forall i :: 0 <= i < |rs| ==> GoodWord(line, rs[i].file)
  }

  ghost predicate GoodArgs(line: string, ws: seq<Word>) {
    forall i :: 0 <= i < |ws| ==> GoodWord(line, ws[i])
  }

  ghost predicate GoodCmd(line: string, c: Cmd) {
    match c
    case Exec(argv) => GoodArgs(line, argv)
    case Redir(cmd, to) => GoodCmd(line, cmd) && GoodWord(line, to.file)
    case Pipe(l, r) => GoodCmd(line, l) && GoodCmd(line, r)
    case List(l, r) => GoodCmd(line, l) && GoodCmd(line, r)
    case Back(cmd) => GoodCmd(line, cmd)
  }

  // ----- every string a successful parse records is a maximal word

  lemma TokenGood(line: string, s: nat)
    requires s <= |line| && IsLine(line) && GetToken(line, s).kind == WORD
    ensures GoodWord(line, Word(GetToken(line, s).q, GetToken(line, s).eq))
  {
  }

  lemma {:induction false} RedirsGood(line: string, s: nat, rs: seq<RedirTo>)
    requires s <= |line| && IsLine(line) && GoodRedirs(line, rs)
    ensures var r := ParseRedirs(line, s, rs); r.Ok? ==> GoodRedirs(line, r.value)
    decreases |line| - s
  {
    hide GetToken, GoodWord, IsLine;
    if Peek(line, s, "<>") {
      var op := GetToken(line, s);
      var file := GetToken(line, op.next);
      if file.kind == WORD {
        TokenGood(line, op.next);
        RedirsGood(line, file.next, rs + [RedirOf(op.kind, file)]);
      }
    }
  }

  lemma {:induction false} ArgsGood(line: string, s: nat, argv: seq<Word>, rs: seq<RedirTo>)
    requires s <= |line| && IsLine(line) && GoodArgs(line, argv) && GoodRedirs(line, rs)
    ensures var r := ParseArgs(line, s, argv, rs);
            r.Ok? ==> GoodArgs(line, r.value.0) && GoodRedirs(line, r.value.1)
    decreases |line| - s
  {
    hide GetToken, GoodWord, IsLine, ParseRedirs, GoodRedirs;
    if !Peek(line, s, "|)&;") {
      var t := GetToken(line, s);
      if t.kind == WORD && |argv| + 1 < MAXARGS {
        TokenGood(line, s);
        RedirsGood(line, t.next, rs);
        var more := ParseRedirs(line, t.next, rs);
        if more.Ok? {
          ArgsGood(line, more.pos, argv + [Word(t.q, t.eq)], more.value);
        }
      }
    }
  }

  lemma {:induction false} WrapGood(line: string, c: Cmd, rs: seq<RedirTo>)
    requires GoodCmd(line, c) && GoodRedirs(line, rs)
    ensures GoodCmd(line, Wrap(c, rs))
    decreases |rs|
  {
    hide GoodWord;
    if rs != [] {
      WrapGood(line, Redir(c, rs[0]), rs[1..]);
    }
  }

  lemma {:induction false} BacksGood(line: string, s: nat, c: Cmd)
    requires s <= |line| && GoodCmd(line, c)
    ensures GoodCmd(line, ParseBacks(line, s, c).0)
    decreases |line| - s
  {
    hide GetToken;
    if Peek(line, s, "&") {
      PeekIsToken(line, s, "&");
      BacksGood(line, GetToken(line, s).next, Back(c));
    }
  }

  lemma {:induction false} ExecGood(line: string, s: nat)
    requires s <= |line| && IsLine(line)
    ensures var r := ParseExec(line, s); r.Ok? ==> GoodCmd(line, r.value)
    decreases |line| - s, 1
  {
    hide IsLine, ParseRedirs, ParseArgs, GoodRedirs, GoodArgs, Wrap;
    if Peek(line, s, "(") {
      BlockGood(line, s);
    } else {
      NoRedirs(line);
      RedirsGood(line, s, []);
      var r := ParseRedirs(line, s, []);
      if r.Ok? {
        ArgsGood(line, r.pos, [], r.value);
        var a := ParseArgs(line, r.pos, [], r.value);
        if a.Ok? {
          WrapGood(line, Exec(a.value.0), a.value.1);
        }
      }
    }
  }

  lemma NoRedirs(line: string)
    ensures GoodRedirs(line, []) && GoodArgs(line, [])
  {
  }

  lemma {:induction false} BlockGood(line: string, s: nat)
    requires s <= |line| && IsLine(line) && Peek(line, s, "(")
    ensures var r := ParseBlock(line, s); r.Ok? ==> GoodCmd(line, r.value)
    decreases |line| - s, 0
  {
    hide IsLine, ParseRedirs, GoodRedirs, GetToken, Wrap;
    PeekIsToken(line, s, "(");
    LineGood(line, GetToken(line, s).next);
    var r := ParseLine(line, GetToken(line, s).next);
    if r.Ok? && Peek(line, r.pos, ")") {
      NoRedirs(line);
      var next := GetToken(line, r.pos).next;
      RedirsGood(line, next, []);
      var rs := ParseRedirs(line, next, []);
      if rs.Ok? {
        WrapGood(line, r.value, rs.value);
      }
    }
  }

  lemma {:induction false} PipeGood(line: string, s: nat)
    requires s <= |line| && IsLine(line)
    ensures var r := ParsePipe(line, s); r.Ok? ==> GoodCmd(line, r.value)
    decreases |line| - s, 2
  {
    hide IsLine, GetToken, ParseExec;
    ExecGood(line, s);
    var r := ParseExec(line, s);
    if r.Ok? && Peek(line, r.pos, "|") {
      PeekIsToken(line, r.pos, "|");
      PipeGood(line, GetToken(line, r.pos).next);
    }
  }

  lemma {:induction false} LineGood(line: string, s: nat)
    requires s <= |line| && IsLine(line)
    ensures var r := ParseLine(line, s); r.Ok? ==> GoodCmd(line, r.value)
    decreases |line| - s, 3
  {
    hide IsLine, GetToken, ParsePipe, ParseBacks;
    PipeGood(line, s);
    var r := ParsePipe(line, s);
    if r.Ok? {
      BacksGood(line, r.pos, r.value);
      var b := ParseBacks(line, r.pos, r.value);
      if Peek(line, b.1, ";") {
        PeekIsToken(line, b.1, ";");
        LineGood(line, GetToken(line, b.1).next);
      }
    }
  }

  // ----- nulterminate

  function ArgEnds(ws: seq<Word>): (r: set<nat>) {
    set i | 0 <= i < |ws| :: ws[i].eq
  }

  /** The positions nulterminate writes. */
  function Ends(c: Cmd): set<nat> {
    match c
    case Exec(argv) => ArgEnds(argv)
    case Redir(cmd, to) => Ends(cmd) + {to.file.eq}
    case Pipe(l, r) => Ends(l) + Ends(r)
    case List(l, r) => Ends(l) + Ends(r)
    case Back(cmd) => Ends(cmd)
  }

  /** s with a NUL at every position in ends. */
  function Ended(s: string, ends: set<nat>): (r: string)
    ensures |r| == |s|
    ensures forall i :: 0 <= i < |s| && i in ends ==> r[i] == NUL
    ensures forall i :: 0 <= i < |s| && i !in ends ==> r[i] == s[i]
  {
    seq(|s|, i requires 0 <= i < |s| => if i in ends then NUL else s[i])
  }

  lemma EndedTwice(s: string, a: set<nat>, b: set<nat>)
    ensures Ended(Ended(s, a), b) == Ended(s, a + b)
  {
  }

  /** Write a NUL at the end of every string of the command; nothing else in the line changes. */
  method Nulterminate(c: Cmd, buf: array<char>)
    requires forall e :: e in Ends(c) ==> e < buf.Length
    modifies buf
    ensures buf[..] == Ended(old(buf[..]), Ends(c))
    decreases c
  {
    ghost var was := buf[..];
    match c {
      case Exec(argv) =>
        for i := 0 to |argv|
          invariant buf[..] == Ended(was, ArgEnds(argv[..i]))
        {
          assert argv[i].eq in Ends(c);
          EndedTwice(was, ArgEnds(argv[..i]), {argv[i].eq});
          ArgEndsStep(argv, i);
          buf[argv[i].eq] := NUL;
          assert buf[..] == Ended(Ended(was, ArgEnds(argv[..i])), {argv[i].eq});
        }
        assert argv[..|argv|] == argv;
      case Redir(cmd, to) =>
        assert Ends(cmd) <= Ends(c) && to.file.eq in Ends(c);
        Nulterminate(cmd, buf);
        EndedTwice(was, Ends(cmd), {to.file.eq});
        buf[to.file.eq] := NUL;
        assert buf[..] == Ended(Ended(was, Ends(cmd)), {to.file.eq});
      case Pipe(l, r) =>
        assert Ends(l) <= Ends(c) && Ends(r) <= Ends(c);
        Nulterminate(l, buf);
        Nulterminate(r, buf);
        EndedTwice(was, Ends(l), Ends(r));
      case List(l, r) =>
        assert Ends(l) <= Ends(c) && Ends(r) <= Ends(c);
        Nulterminate(l, buf);
        Nulterminate(r, buf);
        EndedTwice(was, Ends(l), Ends(r));
      case Back(cmd) =>
        assert Ends(cmd) == Ends(c);
        Nulterminate(cmd, buf);
    }
  }

  lemma ArgEndsStep(ws: seq<Word>, i: nat)
    requires i < |ws|
    ensures ArgEnds(ws[..i + 1]) == ArgEnds(ws[..i]) + {ws[i].eq}
  {
    assert ws[..i + 1] == ws[..i] + [ws[i]];
    forall e | e in ArgEnds(ws[..i + 1])
      ensures e in ArgEnds(ws[..i]) + {ws[i].eq}
    {
      var k :| 0 <= k < i + 1 && ws[..i + 1][k].eq == e;
      assert k < i ==> ws[..i][k].eq == e;
    }
    forall e | e in ArgEnds(ws[..i]) + {ws[i].eq}
      ensures e in ArgEnds(ws[..i + 1])
    {
      if e == ws[i].eq {
        assert ws[..i + 1][i].eq == e;
      } else {
        var k :| 0 <= k < i && ws[..i][k].eq == e;
        assert ws[..i + 1][k].eq == e;
      }
    }
  }

  /** The words a command records. */
  ghost predicate Records(c: Cmd, w: Word) {
    match c
    case Exec(argv) => w in argv
    case Redir(cmd, to) => Records(cmd, w) || w == to.file
    case Pipe(l, r) => Records(l, w) || Records(r, w)
    case List(l, r) => Records(l, w) || Records(r, w)
    case Back(cmd) => Records(cmd, w)
  }

  /** The C string that starts at position q: up to the first NUL. */
  function CString(s: string, q: nat): string
    decreases |s| - q
  {
    if q >= |s| || s[q] == NUL then "" else [s[q]] + CString(s, q + 1)
  }

  lemma {:induction false} RecordsGood(line: string, c: Cmd, w: Word)
    requires GoodCmd(line, c) && Records(c, w)
    ensures GoodWord(line, w) && w.eq in Ends(c)
    decreases c
  {
    match c
    case Exec(argv) =>
      var i :| 0 <= i < |argv| && argv[i] == w;
      assert argv[i].eq in ArgEnds(argv);
    case Redir(cmd, to) =>
      if Records(cmd, w) {
        RecordsGood(line, cmd, w);
      }
    case Pipe(l, r) =>
      if Records(l, w) {
        RecordsGood(line, l, w);
      } else {
        RecordsGood(line, r, w);
      }
    case List(l, r) =>
      if Records(l, w) {
        RecordsGood(line, l, w);
      } else {
        RecordsGood(line, r, w);
      }
    case Back(cmd) =>
      RecordsGood(line, cmd, w);
  }

  /** A position nulterminate writes is not inside any word of the line. */
  lemma {:induction false} EndsAreEnds(line: string, c: Cmd, e: nat)
    requires GoodCmd(line, c) && e in Ends(c)
    ensures e == |line| || (e < |line| && !Plain(line[e]))
    decreases c
  {
    match c
    case Exec(argv) =>
      var i :| 0 <= i < |argv| && argv[i].eq == e;
    case Redir(cmd, to) =>
      if e in Ends(cmd) {
        EndsAreEnds(line, cmd, e);
      }
    case Pipe(l, r) =>
      if e in Ends(l) {
        EndsAreEnds(line, l, e);
      } else {
        EndsAreEnds(line, r, e);
      }
    case List(l, r) =>
      if e in Ends(l) {
        EndsAreEnds(line, l, e);
      } else {
        EndsAreEnds(line, r, e);
      }
    case Back(cmd) =>
      EndsAreEnds(line, cmd, e);
  }

  lemma {:induction false} CStringIs(s: string, q: nat, e: nat)
    requires q <= e < |s| && s[e] == NUL && forall k :: q <= k < e ==> s[k] != NUL
    ensures CString(s, q) == s[q..e]
    decreases e - q
  {
    if q < e {
      CStringIs(s, q + 1, e);
    }
  }

  /** After parsing a line and nulterminate, every recorded string reads exactly its word. */
  lemma StringsAreWords(line: string, w: Word)
    requires IsLine(line) && ParseCmd(line).Ok? && Records(ParseCmd(line).value, w)
    ensures w.q < w.eq <= |line|
    ensures CString(Ended(line + [NUL], Ends(ParseCmd(line).value)), w.q) == line[w.q..w.eq]
  {
    var c := ParseCmd(line).value;
    LineGood(line, 0);
    RecordsGood(line, c, w);
    var s := Ended(line + [NUL], Ends(c));
    forall k | w.q <= k < w.eq
      ensures s[k] == line[k]
    {
      if k in Ends(c) {
        EndsAreEnds(line, c, k);
      }
    }
    CStringIs(s, w.q, w.eq);
    assert s[w.q..w.eq] == line[w.q..w.eq];
  }
}
