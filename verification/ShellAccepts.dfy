/**
 The shell (user/sh.c) accepts no other lines: whatever parsecmd accepts is a line of the grammar, and the command it
 gives is what that line means.
 */
module ShellAccepts {
  import opened ShellTokens
  import opened ShellParser
  import opened ShellRoundTrip
  import opened ShellGrammar

  lemma HasJoin(line: string, pos: nat, a: string, b: string)
    requires Has(line, pos, a) && Has(line, pos + |a|, b)
    ensures Has(line, pos, a + b)
  {
    assert line[pos..pos + |a + b|] == line[pos..pos + |a|] + line[pos + |a|..pos + |a| + |b|];
  }

  lemma HasSlice(line: string, a: nat, b: nat)
    requires a <= b <= |line|
    ensures Has(line, a, line[a..b]) && |line[a..b]| == b - a
  {
  }

  lemma SkippedGap(line: string, e: nat)
    requires e <= |line|
    ensures e <= SkipSpace(line, e) <= |line| && IsGap(line[e..SkipSpace(line, e)])
  {
  }

  // ----- tokens

  lemma WordAt(line: string, e: nat, t: Token)
    requires e <= |line| && t == GetToken(line, e) && t.kind == WORD
    ensures t.q == SkipSpace(line, e) && t.eq == WordEnd(line, t.q) && t.next == SkipSpace(line, t.eq) && t.q < t.eq
  {
  }

  lemma WordChars(line: string, q: nat)
    requires IsLine(line) && q < WordEnd(line, q) <= |line|
    ensures IsWord(line[q..WordEnd(line, q)]) && Clear(line, WordEnd(line, q)) && Plain(line[q])
  {
    var w := line[q..WordEnd(line, q)];
    forall i | 0 <= i < |w| ensures Plain(w[i]) {
      assert w[i] == line[q + i];
    }
  }

  /** A word token. */
  lemma WordIs(line: string, e: nat, t: Token)
    requires IsLine(line) && e <= |line| && t == GetToken(line, e) && t.kind == WORD
    ensures e <= t.q < t.eq <= |line| && t.q == SkipSpace(line, e) && t.next == SkipSpace(line, t.eq)
    ensures IsWord(line[t.q..t.eq]) && Clear(line, t.eq) && Plain(line[t.q])
  {
    hide *;
    WordAt(line, e, t);
    WordChars(line, t.q);
  }

  /** The token of a redirection. */
  lemma OpIs(line: string, e: nat, t: Token) returns (how: How)
    requires IsLine(line) && e <= |line| && t == GetToken(line, e) && Peek(line, e, "<>")
    ensures how != Neither && t.kind == KindOf(how) && t.q == SkipSpace(line, e) && t.next == SkipSpace(line, t.eq)
    ensures e <= t.q < t.eq <= |line| && line[t.q..t.eq] == Op(how)
  {
    how := if t.kind == '<' then Input else if t.kind == '>' then Output else Appending;
  }

  /** A symbol token that was peeked at. */
  lemma SymbolIs(line: string, e: nat, ch: char)
    requires e <= |line| && Peek(line, e, [ch]) && Symbol(ch) && ch != '>'
    ensures var t := GetToken(line, e);
            && t.q == SkipSpace(line, e) && t.eq == t.q + 1 <= |line| && t.next == SkipSpace(line, t.eq)
            && line[t.q..t.eq] == [ch]
  {
  }

  // ----- redirections

  lemma RedirsUnfold(line: string, e: nat, acc: seq<RedirTo>)
    requires e <= |line| && ParseRedirs(line, e, acc).Ok?
    ensures !Peek(line, e, "<>") ==> ParseRedirs(line, e, acc) == Ok(acc, SkipSpace(line, e))
    ensures Peek(line, e, "<>") ==>
              var op := GetToken(line, e);
              var f := GetToken(line, op.next);
              && f.kind == WORD && e < f.next
              && ParseRedirs(line, e, acc) == ParseRedirs(line, f.next, acc + [RedirOf(op.kind, f)])
  {
  }

  lemma OneParsed(line: string, e: nat, op: Token, f: Token) returns (r: Redirect)
    requires IsLine(line) && e <= |line| && Peek(line, e, "<>")
    requires op == GetToken(line, e) && f == GetToken(line, op.next) && f.kind == WORD
    ensures RedirectOk(r) && e < f.eq == e + |RedirectText(r)| <= |line|
    ensures Has(line, e, RedirectText(r)) && Clear(line, f.eq)
    ensures HowOf(RedirOf(op.kind, f)) == r.how && Text(line, RedirOf(op.kind, f).file) == r.file
    ensures f.next == SkipSpace(line, f.eq)
  {
    hide *;
    var how := OpIs(line, e, op);
    SkipTwice(line, op.eq);
    SameStart(line, op.next, op.eq);
    WordIs(line, op.eq, f);
    SkippedGap(line, e);
    SkippedGap(line, op.eq);
    r := Redirect(line[e..op.q], how, line[op.eq..f.q], line[f.q..f.eq]);
    RedirIs(op, f, how);
    RedirectIs(r);
    HasSlice(line, e, op.q);
    HasSlice(line, op.q, op.eq);
    HasSlice(line, op.eq, f.q);
    HasSlice(line, f.q, f.eq);
    HasJoin(line, op.eq, r.gap2, r.file);
    HasJoin(line, op.q, Op(how), r.gap2 + r.file);
    HasJoin(line, e, r.gap, Op(how) + (r.gap2 + r.file));
    TextIs(line, f.q, f.eq);
  }

  lemma TextIs(line: string, a: nat, b: nat)
    requires a <= b <= |line|
    ensures Text(line, Word(a, b)) == line[a..b]
  {
  }

  lemma RedirectIs(r: Redirect)
    requires IsGap(r.gap) && IsGap(r.gap2) && r.how != Neither && IsWord(r.file)
    ensures RedirectOk(r) && RedirectText(r) == r.gap + (Op(r.how) + (r.gap2 + r.file))
  {
  }

  lemma RedirectsMore(r: Redirect, rs: seq<Redirect>)
    requires RedirectOk(r) && RedirectsOk(rs)
    ensures RedirectsOk([r] + rs) && RedirectsText([r] + rs) == RedirectText(r) + RedirectsText(rs)
  {
    assert ([r] + rs)[1..] == rs;
  }

  lemma {:induction false} RedirsParsed(line: string, e: nat, acc: seq<RedirTo>)
    returns (rs: seq<Redirect>, tos: seq<RedirTo>)
    requires IsLine(line) && e <= |line| && ParseRedirs(line, e, acc).Ok?
    ensures RedirectsOk(rs) && Match(line, tos, rs)
    ensures Has(line, e, RedirectsText(rs)) && e + |RedirectsText(rs)| <= |line|
    ensures ParseRedirs(line, e, acc) == Ok(acc + tos, SkipSpace(line, e + |RedirectsText(rs)|))
    ensures (rs != [] ==> Clear(line, e + |RedirectsText(rs)|)) && !Peek(line, e + |RedirectsText(rs)|, "<>")
    decreases |line| - e
  {
    hide *;
    RedirsUnfold(line, e, acc);
    if !Peek(line, e, "<>") {
      rs, tos := [], [];
      NoText();
      NoRedirects(line, e);
      assert acc + [] == acc;
    } else {
      var op := GetToken(line, e);
      var f := GetToken(line, op.next);
      var r := OneParsed(line, e, op, f);
      var to := RedirOf(op.kind, f);
      SkipTwice(line, f.eq);
      RedirsSame(line, f.next, f.eq, acc + [to]);
      var rs', tos' := RedirsParsed(line, f.eq, acc + [to]);
      rs, tos := [r] + rs', [to] + tos';
      RedirectsMore(r, rs');
      HasJoin(line, e, RedirectText(r), RedirectsText(rs'));
      MatchMore(line, to, r, tos', rs');
      assert acc + [to] + tos' == acc + tos;
      if rs' == [] {
        NoText();
      }
    }
  }

  lemma NoRedirects(line: string, e: nat)
    requires e <= |line|
    ensures RedirectsOk([]) && Has(line, e, "") && Match(line, [], [])
  {
  }

  // ----- words

  lemma ArgsUnfoldParse(line: string, e: nat, argv: seq<Word>, rs: seq<RedirTo>)
    requires e <= |line| && IsLine(line) && ParseArgs(line, e, argv, rs).Ok?
    ensures var t := GetToken(line, e);
            if Peek(line, e, "|)&;") || t.kind == NUL then
              ParseArgs(line, e, argv, rs) == Ok((argv, rs), SkipSpace(line, e)) && Ending(line, e)
            else
              && t.kind == WORD && |argv| + 1 < MAXARGS && e < t.next && ParseRedirs(line, t.next, rs).Ok?
              && var m := ParseRedirs(line, t.next, rs);
                 ParseArgs(line, e, argv, rs) == ParseArgs(line, m.pos, argv + [Word(t.q, t.eq)], m.value)
  {
  }

  /** The end of the line or one of the symbols that end a simple command come next. */
  ghost predicate Ending(line: string, e: nat) {
    At(line, SkipSpace(line, e)) == NUL || At(line, SkipSpace(line, e)) in "|)&;"
  }

  /** White space must come before a word that starts where the line is clear. */
  lemma GapNeeded(line: string, e: nat, q: nat)
    requires e <= q < |line| && Plain(line[q]) && Clear(line, e)
    ensures line[e..q] != ""
  {
  }

  lemma ArgIs(a: Arg, args: seq<Arg>)
    requires IsGap(a.gap) && IsWord(a.word) && RedirectsOk(a.redirects) && ArgsOk(args) && Separated(args)
    ensures ArgOk(a) && ArgText(a) == a.gap + (a.word + RedirectsText(a.redirects))
    ensures ArgsOk([a] + args) && ArgsText([a] + args) == ArgText(a) + ArgsText(args)
    ensures ArgWords([a] + args) == [a.word] + ArgWords(args)
    ensures ArgRedirects([a] + args) == a.redirects + ArgRedirects(args)
    ensures ([a] + args)[1..] == args && (a.gap != "" ==> Separated([a] + args))
  {
    assert ([a] + args)[1..] == args;
  }

  lemma NoArgs(line: string, e: nat)
    requires e <= |line|
    ensures ArgsOk([]) && Separated([]) && ArgsText([]) == "" && ArgWords([]) == [] && ArgRedirects([]) == []
    ensures Has(line, e, "") && Match(line, [], [])
  {
  }

  /** ParseArgs reads one word with the redirections after it. */
  lemma ArgParsed(line: string, e: nat, argv: seq<Word>, rs: seq<RedirTo>)
    returns (arg: Arg, w: Word, tos: seq<RedirTo>, m: nat)
    requires IsLine(line) && e <= |line| && ParseArgs(line, e, argv, rs).Ok? && !Peek(line, e, "|)&;")
    requires GetToken(line, e).kind != NUL
    ensures ArgOk(arg) && Has(line, e, ArgText(arg)) && e < m == e + |ArgText(arg)| <= |line| && Clear(line, m)
    ensures ParseArgs(line, e, argv, rs) == ParseArgs(line, m, argv + [w], rs + tos) && |argv| + 1 < MAXARGS
    ensures Match(line, tos, arg.redirects) && Text(line, w) == arg.word && (Clear(line, e) ==> arg.gap != "")
  {
    hide *;
    ArgsUnfoldParse(line, e, argv, rs);
    var t := GetToken(line, e);
    WordIs(line, e, t);
    SkipTwice(line, t.eq);
    RedirsSame(line, t.next, t.eq, rs);
    var more;
    more, tos := RedirsParsed(line, t.eq, rs);
    m := t.eq + |RedirectsText(more)|;
    w := Word(t.q, t.eq);
    SkipTwice(line, m);
    ArgsSame(line, SkipSpace(line, m), m, argv + [w], rs + tos);
    if more == [] {
      NoText();
    }
    arg := WordArg(line, e, t.q, t.eq, more);
  }

  lemma WordArg(line: string, e: nat, q: nat, eq: nat, more: seq<Redirect>) returns (arg: Arg)
    requires e <= q == SkipSpace(line, e) < eq <= |line| && IsWord(line[q..eq]) && Plain(line[q]) && RedirectsOk(more)
    requires Has(line, eq, RedirectsText(more))
    ensures ArgOk(arg) && Has(line, e, ArgText(arg)) && e + |ArgText(arg)| == eq + |RedirectsText(more)|
    ensures arg.redirects == more && arg.word == line[q..eq] == Text(line, Word(q, eq))
    ensures Clear(line, e) ==> arg.gap != ""
  {
    hide *;
    SkippedGap(line, e);
    arg := Arg(line[e..q], line[q..eq], more);
    NoArgs(line, e);
    ArgIs(arg, []);
    HasSlice(line, e, q);
    HasSlice(line, q, eq);
    HasJoin(line, q, arg.word, RedirectsText(more));
    HasJoin(line, e, arg.gap, arg.word + RedirectsText(more));
    if Clear(line, e) {
      GapNeeded(line, e, q);
    }
    TextIs(line, q, eq);
  }

  lemma ArgOkParts(a: Arg)
    requires ArgOk(a)
    ensures IsGap(a.gap) && IsWord(a.word) && RedirectsOk(a.redirects)
  {
  }

  lemma {:induction false} ArgsParsed(line: string, e: nat, argv: seq<Word>, rs: seq<RedirTo>)
    returns (args: seq<Arg>, all: seq<Word>, tos: seq<RedirTo>)
    requires IsLine(line) && e <= |line| && ParseArgs(line, e, argv, rs).Ok? && |argv| < MAXARGS
    ensures ArgsOk(args) && Has(line, e, ArgsText(args)) && Match(line, tos, ArgRedirects(args))
    ensures e + |ArgsText(args)| <= |line| && |argv| + |args| < MAXARGS
    ensures ParseArgs(line, e, argv, rs) == Ok((all, rs + tos), SkipSpace(line, e + |ArgsText(args)|))
    ensures Texts(line, all) == Texts(line, argv) + ArgWords(args) && Ending(line, e + |ArgsText(args)|)
    ensures Separated(args[if args == [] then 0 else 1..]) && (Clear(line, e) ==> Separated(args))
    decreases |line| - e
  {
    hide *;
    NoArgs(line, e);
    if Peek(line, e, "|)&;") || GetToken(line, e).kind == NUL {
      ArgsUnfoldParse(line, e, argv, rs);
      args, all, tos := [], argv, [];
      assert rs + [] == rs;
    } else {
      var arg, w, a, m := ArgParsed(line, e, argv, rs);
      var rest, b;
      rest, all, b := ArgsParsed(line, m, argv + [w], rs + a);
      ArgOkParts(arg);
      ArgIs(arg, rest);
      args, tos := [arg] + rest, a + b;
      HasJoin(line, e, ArgText(arg), ArgsText(rest));
      TextsSnoc(line, argv, w);
      assert Texts(line, argv) + [arg.word] + ArgWords(rest) == Texts(line, argv) + ArgWords(args);
      assert rs + a + b == rs + tos;
      MatchJoin(line, a, arg.redirects, b, ArgRedirects(rest));
    }
  }

  // ----- commands

  /** Source s stands in the line at e, and a parse function gave c for it. */
  ghost predicate Stands(line: string, e: nat, s: Source, c: Cmd, pos: nat) {
    && SourceOk(s) && Has(line, e, SourceText(s)) && e + |SourceText(s)| <= |line|
    && pos == SkipSpace(line, e + |SourceText(s)|) && Meaning(line, c) == Denotes(s)
  }

  lemma StandsParts(line: string, e: nat, s: Source, c: Cmd, pos: nat)
    requires Stands(line, e, s, c, pos)
    ensures SourceOk(s) && Has(line, e, SourceText(s)) && e + |SourceText(s)| <= |line|
    ensures pos == SkipSpace(line, e + |SourceText(s)|) && Meaning(line, c) == Denotes(s)
  {
  }

  lemma StandsIs(line: string, e: nat, s: Source, c: Cmd)
    requires SourceOk(s) && Has(line, e, SourceText(s)) && Meaning(line, c) == Denotes(s)
    ensures e + |SourceText(s)| <= |line| && Stands(line, e, s, c, SkipSpace(line, e + |SourceText(s)|))
  {
  }

  lemma ExecUnfold(line: string, e: nat)
    requires e <= |line| && ParseExec(line, e).Ok? && !Peek(line, e, "(")
    ensures ParseRedirs(line, e, []).Ok? && 0 < MAXARGS
    ensures var r := ParseRedirs(line, e, []);
            && ParseArgs(line, r.pos, [], r.value).Ok?
            && var a := ParseArgs(line, r.pos, [], r.value);
               ParseExec(line, e) == Ok(Wrap(Exec(a.value.0), a.value.1), a.pos)
  {
  }

  lemma SimpleIs(before: seq<Redirect>, args: seq<Arg>)
    requires RedirectsOk(before) && ArgsOk(args) && |args| < MAXARGS && Separated(args[if args == [] then 0 else 1..])
    requires before != [] ==> Separated(args)
    ensures SourceOk(Simple(before, args)) && SourceText(Simple(before, args)) == RedirectsText(before) + ArgsText(args)
  {
  }

  lemma SimpleParsed(line: string, e: nat) returns (s: Source)
    requires IsLine(line) && e <= |line| && ParseExec(line, e).Ok? && !Peek(line, e, "(")
    ensures s.Simple? && Stands(line, e, s, ParseExec(line, e).value, ParseExec(line, e).pos)
  {
    hide *;
    ExecUnfold(line, e);
    var before, tos := RedirsParsed(line, e, []);
    assert [] + tos == tos;
    var m := e + |RedirectsText(before)|;
    SkipTwice(line, m);
    ArgsSame(line, SkipSpace(line, m), m, [], tos);
    var args, all, more := ArgsParsed(line, m, [], tos);
    SimpleIs(before, args);
    s := Simple(before, args);
    HasJoin(line, e, RedirectsText(before), ArgsText(args));
    MatchJoin(line, tos, before, more, ArgRedirects(args));
    WrapMeans(line, Exec(all), tos + more, before + ArgRedirects(args));
    SimpleMeans(line, s, all);
    StandsIs(line, e, s, Wrap(Exec(all), tos + more));
  }

  lemma BlockUnfoldParse(line: string, e: nat)
    requires e <= |line| && ParseExec(line, e).Ok? && Peek(line, e, "(")
    ensures var b := GetToken(line, e).next;
            && e < b && ParseLine(line, b).Ok?
            && var l := ParseLine(line, b);
               && Peek(line, l.pos, ")")
               && var a := GetToken(line, l.pos).next;
                  && ParseRedirs(line, a, []).Ok?
                  && var r := ParseRedirs(line, a, []); ParseExec(line, e) == Ok(Wrap(l.value, r.value), r.pos)
  {
    PeekIsToken(line, e, "(");
  }

  lemma BlockIs(gap: string, body: Source, gap2: string, after: seq<Redirect>)
    requires IsGap(gap) && IsGap(gap2) && IsWhole(body) && SourceOk(body) && RedirectsOk(after)
    ensures var s := Block(gap, body, gap2, after);
            SourceOk(s) && SourceText(s) == gap + "(" + (SourceText(body) + (gap2 + ")" + RedirectsText(after)))
  {
  }

  /** White space and a symbol at e. */
  lemma GapSymbol(line: string, e: nat, ch: char) returns (gap: string)
    requires e <= |line| && Peek(line, e, [ch]) && Symbol(ch) && ch != '>'
    ensures IsGap(gap) && Has(line, e, gap + [ch]) && e + |gap| + 1 <= |line|
    ensures GetToken(line, e).next == SkipSpace(line, e + |gap| + 1)
  {
    hide *;
    SymbolIs(line, e, ch);
    var t := GetToken(line, e);
    SkippedGap(line, e);
    gap := line[e..t.q];
    HasSlice(line, e, t.q);
    HasSlice(line, t.q, t.eq);
    HasJoin(line, e, gap, [ch]);
  }

  /** The same where the cursor has been moved over white space already. */
  lemma SymbolAfter(line: string, m: nat, ch: char) returns (gap: string)
    requires m <= |line| && Peek(line, SkipSpace(line, m), [ch]) && Symbol(ch) && ch != '>'
    ensures IsGap(gap) && Has(line, m, gap + [ch]) && m + |gap| + 1 <= |line|
    ensures GetToken(line, SkipSpace(line, m)).next == SkipSpace(line, m + |gap| + 1)
    ensures SkipSpace(line, SkipSpace(line, m + |gap| + 1)) == SkipSpace(line, m + |gap| + 1)
  {
    hide *;
    SkippedGap(line, m);
    SkipTwice(line, m);
    SameStart(line, SkipSpace(line, m), m);
    gap := GapSymbol(line, m, ch);
    SkipTwice(line, m + |gap| + 1);
  }

  lemma HasInfix(line: string, e: nat, x: string, g: string, y: string)
    requires Has(line, e, x) && Has(line, e + |x|, g) && Has(line, e + |x| + |g|, y)
    ensures Has(line, e, x + (g + y))
  {
    hide *;
    HasJoin(line, e + |x|, g, y);
    HasJoin(line, e, x, g + y);
  }

  /** The closing parenthesis and the redirections after it. */
  lemma BlockCloses(line: string, f: nat) returns (gap: string, after: seq<Redirect>, tos: seq<RedirTo>)
    requires IsLine(line) && f <= |line| && Peek(line, SkipSpace(line, f), ")")
    requires ParseRedirs(line, GetToken(line, SkipSpace(line, f)).next, []).Ok?
    ensures IsGap(gap) && RedirectsOk(after) && Match(line, tos, after)
    ensures Has(line, f, gap + ")" + RedirectsText(after)) && f + |gap + ")" + RedirectsText(after)| <= |line|
    ensures ParseRedirs(line, GetToken(line, SkipSpace(line, f)).next, [])
              == Ok(tos, SkipSpace(line, f + |gap + ")" + RedirectsText(after)|))
  {
    hide *;
    SymbolsAre();
    gap := SymbolAfter(line, f, ')');
    var a := f + |gap| + 1;
    RedirsSame(line, SkipSpace(line, a), a, []);
    after, tos := RedirsParsed(line, a, []);
    assert [] + tos == tos;
    HasJoin(line, f, gap + ")", RedirectsText(after));
  }

  lemma BlockStands(line: string, e: nat, s: Source, c: Cmd, tos: seq<RedirTo>)
    requires s.Block? && IsGap(s.gap) && IsGap(s.gap2) && IsWhole(s.body) && SourceOk(s.body) && RedirectsOk(s.after)
    requires Match(line, tos, s.after) && Meaning(line, c) == Denotes(s.body)
    requires var b := e + |s.gap| + 1;
             && Has(line, e, s.gap + ['(']) && Has(line, b, SourceText(s.body))
             && Has(line, b + |SourceText(s.body)|, s.gap2 + ")" + RedirectsText(s.after))
    ensures var f := e + |s.gap| + 1 + |SourceText(s.body)| + |s.gap2 + ")" + RedirectsText(s.after)|;
            f <= |line| && Stands(line, e, s, Wrap(c, tos), SkipSpace(line, f))
  {
    hide *;
    var last := s.gap2 + ")" + RedirectsText(s.after);
    BlockIs(s.gap, s.body, s.gap2, s.after);
    HasJoin(line, e + |s.gap| + 1, SourceText(s.body), last);
    HasJoin(line, e, s.gap + "(", SourceText(s.body) + last);
    BlockMeans(s);
    WrapMeans(line, c, tos, s.after);
    StandsIs(line, e, s, Wrap(c, tos));
  }

  lemma BlockParsed(line: string, e: nat) returns (s: Source)
    requires IsLine(line) && e <= |line| && ParseExec(line, e).Ok? && Peek(line, e, "(")
    ensures s.Block? && Stands(line, e, s, ParseExec(line, e).value, ParseExec(line, e).pos)
    decreases |line| - e, 0
  {
    hide *;
    BlockUnfoldParse(line, e);
    SymbolsAre();
    var gap := GapSymbol(line, e, '(');
    var b := e + |gap| + 1;
    SkipTwice(line, b);
    LineSame(line, SkipSpace(line, b), b);
    var body := WholeParsed(line, b);
    StandsParts(line, b, body, ParseLine(line, b).value, ParseLine(line, b).pos);
    var f := b + |SourceText(body)|;
    var gap2, after, tos := BlockCloses(line, f);
    s := Block(gap, body, gap2, after);
    BlockStands(line, e, s, ParseLine(line, b).value, tos);
  }

  lemma ExecParsed(line: string, e: nat) returns (s: Source)
    requires IsLine(line) && e <= |line| && ParseExec(line, e).Ok?
    ensures IsExec(s) && Stands(line, e, s, ParseExec(line, e).value, ParseExec(line, e).pos)
    decreases |line| - e, 1
  {
    hide ParseExec, Stands, Peek, IsLine;
    if Peek(line, e, "(") {
      s := BlockParsed(line, e);
    } else {
      s := SimpleParsed(line, e);
    }
  }

  lemma PipeUnfold(line: string, e: nat)
    requires e <= |line| && ParsePipe(line, e).Ok?
    ensures ParseExec(line, e).Ok?
    ensures var l := ParseExec(line, e);
            && l.pos <= |line|
            && (!Peek(line, l.pos, "|") ==> ParsePipe(line, e) == Ok(l.value, SkipSpace(line, l.pos)))
            && (Peek(line, l.pos, "|") ==>
                  var b := GetToken(line, l.pos).next;
                  && e < b && ParsePipe(line, b).Ok?
                  && ParsePipe(line, e) == Ok(Pipe(l.value, ParsePipe(line, b).value), ParsePipe(line, b).pos))
  {
    var l := ParseExec(line, e);
    if Peek(line, l.pos, "|") {
      PeekIsToken(line, l.pos, "|");
    }
  }

  lemma PipedIs(left: Source, gap: string, right: Source)
    requires IsGap(gap) && IsExec(left) && SourceOk(left) && IsPipe(right) && SourceOk(right)
    ensures var s := Piped(left, gap, right);
            && SourceOk(s) && SourceText(s) == SourceText(left) + (gap + ['|'] + SourceText(right)) && IsPipe(s)
            && Denotes(s) == TPipe(Denotes(left), Denotes(right))
  {
  }

  lemma ExecIsPipe(s: Source)
    requires IsExec(s)
    ensures IsPipe(s)
  {
  }

  lemma PipeParsed(line: string, e: nat) returns (s: Source)
    requires IsLine(line) && e <= |line| && ParsePipe(line, e).Ok?
    ensures IsPipe(s) && Stands(line, e, s, ParsePipe(line, e).value, ParsePipe(line, e).pos)
    decreases |line| - e, 2
  {
    hide *;
    PipeUnfold(line, e);
    var l := ParseExec(line, e);
    var left := ExecParsed(line, e);
    StandsParts(line, e, left, l.value, l.pos);
    var m := e + |SourceText(left)|;
    SkipTwice(line, m);
    if !Peek(line, l.pos, "|") {
      s := left;
      ExecIsPipe(s);
    } else {
      SymbolsAre();
      var gap := SymbolAfter(line, m, '|');
      var b := m + |gap| + 1;
      PipeSame(line, SkipSpace(line, b), b);
      var right := PipeParsed(line, b);
      var r := ParsePipe(line, b);
      StandsParts(line, b, right, r.value, r.pos);
      PipedIs(left, gap, right);
      s := Piped(left, gap, right);
      HasInfix(line, e, SourceText(left), gap + ['|'], SourceText(right));
      PipeMeans(line, l.value, r.value);
      StandsIs(line, e, s, Pipe(l.value, r.value));
    }
  }

  // ----- lines

  lemma BacksMore(g: string, backs: seq<string>)
    requires IsGap(g) && BacksOk(backs)
    ensures BacksOk([g] + backs) && BacksText([g] + backs) == g + ['&'] + BacksText(backs)
  {
    assert ([g] + backs)[1..] == backs;
  }

  lemma BacksEmpty(line: string, e: nat)
    requires e <= |line|
    ensures BacksOk([]) && BacksText([]) == "" && Has(line, e, "")
  {
  }

  lemma {:induction false} BacksParsed(line: string, e: nat, c: Cmd) returns (backs: seq<string>, r: Cmd)
    requires e <= |line|
    ensures BacksOk(backs) && Has(line, e, BacksText(backs)) && e + |BacksText(backs)| <= |line|
    ensures ParseBacks(line, e, c) == (r, SkipSpace(line, e + |BacksText(backs)|))
    ensures Meaning(line, r) == Backed(Meaning(line, c), |backs|)
    decreases |line| - e
  {
    hide *;
    if !Peek(line, e, "&") {
      BacksDone(line, e, c);
      BacksEmpty(line, e);
      BackedMore(Meaning(line, c), 0);
      backs, r := [], c;
    } else {
      SymbolsAre();
      var gap := GapSymbol(line, e, '&');
      var m := e + |gap| + 1;
      BackOnce(line, e, c, SkipSpace(line, m));
      SkipTwice(line, m);
      BacksSame(line, SkipSpace(line, m), m, Back(c));
      var more;
      more, r := BacksParsed(line, m, Back(c));
      backs := [gap] + more;
      BacksMore(gap, more);
      HasJoin(line, e, gap + ['&'], BacksText(more));
      PipeMeans(line, c, c);
      BackedMore(Meaning(line, c), |more|);
    }
  }

  lemma LineUnfold(line: string, e: nat)
    requires e <= |line| && ParseLine(line, e).Ok?
    ensures ParsePipe(line, e).Ok?
    ensures var p := ParsePipe(line, e);
            && e <= p.pos <= |line|
            && var b := ParseBacks(line, p.pos, p.value);
               && b.1 <= |line|
               && (!Peek(line, b.1, ";") ==> ParseLine(line, e) == Ok(b.0, SkipSpace(line, b.1)))
               && (Peek(line, b.1, ";") ==>
                     var n := GetToken(line, b.1).next;
                     && e < n && ParseLine(line, n).Ok?
                     && ParseLine(line, e) == Ok(List(b.0, ParseLine(line, n).value), ParseLine(line, n).pos))
  {
    var p := ParsePipe(line, e);
    var b := ParseBacks(line, p.pos, p.value);
    if Peek(line, b.1, ";") {
      PeekIsToken(line, b.1, ";");
    }
  }

  lemma EndedIs(pipe: Source, backs: seq<string>)
    requires IsPipe(pipe) && SourceOk(pipe) && BacksOk(backs)
    ensures var s := Ended(pipe, backs);
            && SourceOk(s) && IsWhole(s) && SourceText(s) == SourceText(pipe) + BacksText(backs)
            && Denotes(s) == Backed(Denotes(pipe), |backs|)
  {
  }

  /** A pipeline and its "&"s. */
  lemma EndedParsed(line: string, e: nat) returns (s: Source)
    requires IsLine(line) && e <= |line| && ParsePipe(line, e).Ok? && ParsePipe(line, e).pos <= |line|
    ensures s.Ended? && IsWhole(s)
    ensures var p := ParsePipe(line, e);
            var b := ParseBacks(line, p.pos, p.value);
            Stands(line, e, s, b.0, b.1)
    decreases |line| - e, 3
  {
    hide *;
    var p := ParsePipe(line, e);
    var pipe := PipeParsed(line, e);
    StandsParts(line, e, pipe, p.value, p.pos);
    var m := e + |SourceText(pipe)|;
    SkipTwice(line, m);
    BacksSame(line, SkipSpace(line, m), m, p.value);
    var backs, r := BacksParsed(line, m, p.value);
    EndedIs(pipe, backs);
    s := Ended(pipe, backs);
    HasJoin(line, e, SourceText(pipe), BacksText(backs));
    StandsIs(line, e, s, r);
  }

  lemma ListedIs(first: Source, gap: string, rest: Source)
    requires IsGap(gap) && first.Ended? && SourceOk(first) && IsWhole(rest) && SourceOk(rest)
    ensures var s := Listed(first, gap, rest);
            && SourceOk(s) && IsWhole(s) && SourceText(s) == SourceText(first) + (gap + [';'] + SourceText(rest))
            && Denotes(s) == TList(Denotes(first), Denotes(rest))
  {
  }

  lemma WholeParsed(line: string, e: nat) returns (s: Source)
    requires IsLine(line) && e <= |line| && ParseLine(line, e).Ok?
    ensures IsWhole(s) && Stands(line, e, s, ParseLine(line, e).value, ParseLine(line, e).pos)
    decreases |line| - e, 4
  {
    hide *;
    LineUnfold(line, e);
    var p := ParsePipe(line, e);
    var b := ParseBacks(line, p.pos, p.value);
    var first := EndedParsed(line, e);
    StandsParts(line, e, first, b.0, b.1);
    var m := e + |SourceText(first)|;
    SkipTwice(line, m);
    if !Peek(line, b.1, ";") {
      s := first;
    } else {
      SymbolsAre();
      var gap := SymbolAfter(line, m, ';');
      var n := m + |gap| + 1;
      LineSame(line, SkipSpace(line, n), n);
      var rest := WholeParsed(line, n);
      var r := ParseLine(line, n);
      StandsParts(line, n, rest, r.value, r.pos);
      ListedIs(first, gap, rest);
      s := Listed(first, gap, rest);
      HasInfix(line, e, SourceText(first), gap + [';'], SourceText(rest));
      PipeMeans(line, b.0, r.value);
      StandsIs(line, e, s, List(b.0, r.value));
    }
  }

  lemma CmdUnfold(line: string)
    requires ParseCmd(line).Ok?
    ensures ParseLine(line, 0).Ok? && ParseCmd(line).value == ParseLine(line, 0).value
    ensures ParseLine(line, 0).pos <= |line| && SkipSpace(line, ParseLine(line, 0).pos) == |line|
  {
  }

  /** What parsecmd accepts is a line of the grammar with white space after it, and gives what that line means. */
  lemma AcceptedIsSource(line: string) returns (s: Source, tail: string)
    requires IsLine(line) && ParseCmd(line).Ok?
    ensures IsWhole(s) && SourceOk(s) && IsGap(tail) && line == SourceText(s) + tail
    ensures Meaning(line, ParseCmd(line).value) == Denotes(s)
  {
    CmdUnfold(line);
    s := WholeParsed(line, 0);
    var e := |SourceText(s)|;
    tail := line[e..];
    hide SourceText, SourceOk, Meaning, Denotes, ParseLine, ParseCmd;
    SkipTwice(line, e);
    SkippedGap(line, e);
    assert line[0..0 + e] == SourceText(s);
    assert line[e..SkipSpace(line, e)] == tail;
  }

  /** Accepted if and only if a line of the grammar. */
  lemma AcceptsIff(line: string)
    requires IsLine(line)
    ensures ParseCmd(line).Ok? <==> exists s: Source, tail: string ::
              IsWhole(s) && SourceOk(s) && IsGap(tail) && line == SourceText(s) + tail
  {
    hide *;
    if ParseCmd(line).Ok? {
      var s, tail := AcceptedIsSource(line);
    }
    if s: Source, tail: string :| IsWhole(s) && SourceOk(s) && IsGap(tail) && line == SourceText(s) + tail {
      var c := SourceParses(s, tail);
    }
  }
}
