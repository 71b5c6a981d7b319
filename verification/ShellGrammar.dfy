/**
 The lines that the shell (user/sh.c) accepts, written out as they stand, with any white space between their parts:
 simple commands with redirections before, between and after their words, parentheses, pipelines, "&" and ";".  What
 parsing gives for each: the precedence of "|", "&" and ";", their associativity, and which redirection is innermost.
 */
module ShellGrammar {
  import opened ShellTokens
  import opened ShellParser
  import opened ShellRoundTrip

  predicate IsGap(g: string) { forall i :: 0 <= i < |g| ==> Space(g[i]) }

  /** A redirection: white space, the operator, white space, the file. */
  datatype Redirect = Redirect(gap: string, how: How, gap2: string, file: string)

  predicate RedirectOk(r: Redirect) { IsGap(r.gap) && IsGap(r.gap2) && r.how != Neither && IsWord(r.file) }

  function RedirectText(r: Redirect): string { r.gap + (Op(r.how) + (r.gap2 + r.file)) }

  function RedirectsText(rs: seq<Redirect>): string {
    if rs == [] then "" else RedirectText(rs[0]) + RedirectsText(rs[1..])
  }

  predicate RedirectsOk(rs: seq<Redirect>) { forall k :: 0 <= k < |rs| ==> RedirectOk(rs[k]) }

  /** A word with white space before it and redirections after it. */
  datatype Arg = Arg(gap: string, word: string, redirects: seq<Redirect>)

  predicate ArgOk(a: Arg) { IsGap(a.gap) && IsWord(a.word) && RedirectsOk(a.redirects) }

  function ArgText(a: Arg): string { a.gap + (a.word + RedirectsText(a.redirects)) }

  function ArgsText(args: seq<Arg>): string {
    if args == [] then "" else ArgText(args[0]) + ArgsText(args[1..])
  }

  // ----- positions in a line

  /** The end of a piece of text at e: what follows does not go on with a word. */
  ghost predicate Clear(line: string, e: nat) { e <= |line| && (e < |line| ==> !Plain(line[e])) }

  predicate StartsClear(t: string) { t != "" ==> !Plain(t[0]) }

  lemma ClearBefore(line: string, p: nat, t: string)
    requires Has(line, p, t) && StartsClear(t) && Clear(line, p + |t|)
    ensures Clear(line, p)
  {
    if t != "" {
      assert line[p] == line[p..p + |t|][0];
    }
  }

  lemma RedirectsClear(rs: seq<Redirect>)
    requires RedirectsOk(rs)
    ensures StartsClear(RedirectsText(rs))
  {
    if rs != [] {
      var r := rs[0];
      assert RedirectOk(r);
      if r.gap != "" {
        assert RedirectsText(rs)[0] == r.gap[0];
      } else {
        assert RedirectsText(rs)[0] == Op(r.how)[0];
      }
    }
  }

  /** White space at pos is skipped over. */
  lemma {:induction false} GapSkip(line: string, pos: nat, g: string)
    requires IsGap(g) && Has(line, pos, g)
    ensures SkipSpace(line, pos) == SkipSpace(line, pos + |g|)
    decreases |g|
  {
    if g != "" {
      assert line[pos] == line[pos..pos + |g|][0];
      assert line[pos + 1..pos + 1 + |g[1..]|] == line[pos..pos + |g|][1..];
      GapSkip(line, pos + 1, g[1..]);
    }
  }

  /** Parsing does not see white space at the cursor. */
  lemma SameStart(line: string, s: nat, s': nat)
    requires s <= |line| && s' <= |line| && SkipSpace(line, s) == SkipSpace(line, s')
    ensures GetToken(line, s) == GetToken(line, s')
    ensures forall toks :: Peek(line, s, toks) == Peek(line, s', toks)
  {
  }

  lemma RedirsSame(line: string, s: nat, s': nat, rs: seq<RedirTo>)
    requires s <= |line| && s' <= |line| && SkipSpace(line, s) == SkipSpace(line, s')
    ensures ParseRedirs(line, s, rs) == ParseRedirs(line, s', rs)
  {
    SameStart(line, s, s');
    hide GetToken, Peek, RedirOf;
  }

  lemma ArgsSame(line: string, s: nat, s': nat, argv: seq<Word>, rs: seq<RedirTo>)
    requires s <= |line| && s' <= |line| && SkipSpace(line, s) == SkipSpace(line, s')
    ensures ParseArgs(line, s, argv, rs) == ParseArgs(line, s', argv, rs)
  {
    SameStart(line, s, s');
    hide GetToken, Peek, ParseRedirs;
  }

  lemma SkipTwice(line: string, s: nat)
    requires s <= |line|
    ensures SkipSpace(line, SkipSpace(line, s)) == SkipSpace(line, s)
  {
  }

  /** A word at the cursor, after white space, that ends where the line is clear. */
  lemma GappedWord(line: string, pos: nat, g: string, w: string)
    requires IsLine(line) && IsGap(g) && IsWord(w) && Has(line, pos, g + w) && Clear(line, pos + |g| + |w|)
    ensures pos + |g| + |w| <= |line|
    ensures var p, e := pos + |g|, pos + |g| + |w|; GetToken(line, pos) == Token(WORD, p, e, SkipSpace(line, e))
    ensures ShellRoundTrip.Text(line, Word(pos + |g|, pos + |g| + |w|)) == w && At(line, SkipSpace(line, pos)) == w[0]
  {
    HasSplit(line, pos, g, w);
    GapSkip(line, pos, g);
    SameStart(line, pos, pos + |g|);
    WordToken(line, pos + |g|, w);
    assert line[pos + |g|] == line[pos + |g|..pos + |g| + |w|][0];
  }

  // ----- redirections

  function KindOf(how: How): char { match how case Input => '<' case Output => '>' case _ => APPEND }

  /** An operator at p, followed by something that does not make it another one. */
  lemma BareOp(line: string, p: nat, how: How)
    requires how != Neither && Has(line, p, Op(how)) && At(line, p + |Op(how)|) != '>'
    ensures p + |Op(how)| <= |line| && Peek(line, p, "<>")
    ensures GetToken(line, p).kind == KindOf(how) && GetToken(line, p).next == SkipSpace(line, p + |Op(how)|)
  {
    var e := p + |Op(how)|;
    assert line[p] == line[p..e][0] == Op(how)[0];
    if how == Appending {
      assert line[p + 1] == line[p..e][1] == '>';
    }
    RestsSkip(line, p);
  }

  lemma GappedOp(line: string, pos: nat, g: string, how: How)
    requires IsGap(g) && how != Neither && Has(line, pos, g + Op(how)) && At(line, pos + |g| + |Op(how)|) != '>'
    ensures pos + |g| + |Op(how)| <= |line| && Peek(line, pos, "<>")
    ensures GetToken(line, pos).kind == KindOf(how)
    ensures GetToken(line, pos).next == SkipSpace(line, pos + |g| + |Op(how)|)
  {
    HasSplit(line, pos, g, Op(how));
    HasInside(line, pos, g);
    hide *;
    GapSkip(line, pos, g);
    HasInside(line, pos + |g|, Op(how));
    BareOp(line, pos + |g|, how);
    SameStart(line, pos, pos + |g|);
  }

  lemma HasInside(line: string, pos: nat, s: string)
    requires Has(line, pos, s)
    ensures pos + |s| <= |line|
  {
  }

  lemma RedirStepOnce(line: string, s: nat, acc: seq<RedirTo>, op: Token, file: Token)
    requires s <= |line| && Peek(line, s, "<>") && op == GetToken(line, s) && file == GetToken(line, op.next)
    requires file.kind == WORD
    ensures ParseRedirs(line, s, acc) == ParseRedirs(line, file.next, acc + [RedirOf(op.kind, file)])
  {
    hide GetToken, Peek, RedirOf;
  }

  lemma RedirectOkParts(r: Redirect)
    requires RedirectOk(r)
    ensures IsGap(r.gap) && IsGap(r.gap2) && r.how != Neither && IsWord(r.file)
  {
  }

  lemma RedirectParts(line: string, pos: nat, r: Redirect)
    requires RedirectOk(r) && Has(line, pos, RedirectText(r))
    ensures var m := pos + |r.gap| + |Op(r.how)|;
            && Has(line, pos, r.gap + Op(r.how)) && Has(line, m, r.gap2 + r.file) && At(line, m) != '>'
            && pos + |RedirectText(r)| == m + |r.gap2| + |r.file| <= |line|
  {
    var op, w := Op(r.how), r.gap2 + r.file;
    assert r.gap + (op + w) == (r.gap + op) + w;
    HasSplit(line, pos, r.gap + op, w);
    NotGreater(line, pos + |r.gap| + |op|, r);
  }

  /** ParseRedirs reads one redirection. */
  lemma OneRedirect(line: string, pos: nat, r: Redirect, acc: seq<RedirTo>) returns (to: RedirTo)
    requires IsLine(line) && RedirectOk(r) && Has(line, pos, RedirectText(r)) && Clear(line, pos + |RedirectText(r)|)
    ensures pos + |RedirectText(r)| <= |line|
    ensures ParseRedirs(line, pos, acc) == ParseRedirs(line, pos + |RedirectText(r)|, acc + [to])
    ensures HowOf(to) == r.how && Text(line, to.file) == r.file
  {
    hide *;
    RedirectParts(line, pos, r);
    RedirectOkParts(r);
    var m, e := pos + |r.gap| + |Op(r.how)|, pos + |RedirectText(r)|;
    GappedOp(line, pos, r.gap, r.how);
    GappedWord(line, m, r.gap2, r.file);
    SkipTwice(line, m);
    SameStart(line, m, SkipSpace(line, m));
    var a, f := GetToken(line, pos), GetToken(line, m);
    to := RedirOf(a.kind, f);
    RedirIs(a, f, r.how);
    RedirStepOnce(line, pos, acc, a, f);
    SkipTwice(line, e);
    RedirsSame(line, f.next, e, acc + [to]);
  }

  lemma RedirIs(a: Token, f: Token, how: How)
    requires how != Neither && a.kind == KindOf(how)
    ensures HowOf(RedirOf(a.kind, f)) == how && RedirOf(a.kind, f).file == Word(f.q, f.eq)
  {
  }

  lemma NotGreater(line: string, m: nat, r: Redirect)
    requires RedirectOk(r) && Has(line, m, r.gap2 + r.file)
    ensures At(line, m) != '>'
  {
    var w := r.gap2 + r.file;
    assert line[m] == line[m..m + |w|][0] == w[0];
    assert Space(w[0]) || Plain(w[0]);
  }

  /** What redirections tos of a parse stand for. */
  ghost predicate Match(line: string, tos: seq<RedirTo>, rs: seq<Redirect>) {
    |tos| == |rs| && forall k :: 0 <= k < |rs| ==> HowOf(tos[k]) == rs[k].how && Text(line, tos[k].file) == rs[k].file
  }

  lemma RedirectsParts(line: string, pos: nat, rs: seq<Redirect>)
    requires rs != [] && RedirectsOk(rs) && Has(line, pos, RedirectsText(rs)) && Clear(line, pos + |RedirectsText(rs)|)
    ensures RedirectOk(rs[0]) && RedirectsOk(rs[1..]) && Has(line, pos, RedirectText(rs[0]))
    ensures var m := pos + |RedirectText(rs[0])|;
            && Has(line, m, RedirectsText(rs[1..])) && m + |RedirectsText(rs[1..])| == pos + |RedirectsText(rs)|
            && Clear(line, m)
  {
    hide *;
    var a, b := RedirectText(rs[0]), RedirectsText(rs[1..]);
    RedirectsFirst(rs);
    HasSplit(line, pos, a, b);
    RedirectsClear(rs[1..]);
    ClearBefore(line, pos + |a|, b);
  }

  lemma RedirectsFirst(rs: seq<Redirect>)
    requires rs != [] && RedirectsOk(rs)
    ensures RedirectsText(rs) == RedirectText(rs[0]) + RedirectsText(rs[1..]) && RedirectOk(rs[0])
    ensures RedirectsOk(rs[1..])
  {
    hide RedirectOk, RedirectText;
  }

  lemma NoText()
    ensures RedirectsText([]) == "" && ArgsText([]) == ""
  {
  }

  lemma RedirectsEnd(line: string, pos: nat, acc: seq<RedirTo>)
    requires pos <= |line| && !Peek(line, pos, "<>")
    ensures ParseRedirs(line, pos, acc) == Ok(acc + [], SkipSpace(line, pos)) && Match(line, [], [])
  {
    assert acc + [] == acc;
  }

  lemma MatchMore(line: string, to: RedirTo, r: Redirect, tos: seq<RedirTo>, rs: seq<Redirect>)
    requires HowOf(to) == r.how && Text(line, to.file) == r.file && Match(line, tos, rs)
    ensures Match(line, [to] + tos, [r] + rs)
  {
  }

  lemma {:induction false} RedirectsParse(line: string, pos: nat, rs: seq<Redirect>, acc: seq<RedirTo>)
    returns (tos: seq<RedirTo>)
    requires IsLine(line) && RedirectsOk(rs) && Has(line, pos, RedirectsText(rs))
    requires Clear(line, pos + |RedirectsText(rs)|) && !Peek(line, pos + |RedirectsText(rs)|, "<>")
    ensures pos + |RedirectsText(rs)| <= |line| && Match(line, tos, rs)
    ensures ParseRedirs(line, pos, acc) == Ok(acc + tos, SkipSpace(line, pos + |RedirectsText(rs)|))
    decreases |rs|
  {
    hide *;
    HasInside(line, pos, RedirectsText(rs));
    if rs == [] {
      tos := [];
      NoText();
      RedirectsEnd(line, pos, acc);
    } else {
      RedirectsParts(line, pos, rs);
      var to := OneRedirect(line, pos, rs[0], acc);
      var rest := RedirectsParse(line, pos + |RedirectText(rs[0])|, rs[1..], acc + [to]);
      tos := [to] + rest;
      assert acc + [to] + rest == acc + tos;
      MatchMore(line, to, rs[0], rest, rs[1..]);
      assert [rs[0]] + rs[1..] == rs;
    }
  }

  // ----- words

  predicate ArgsOk(args: seq<Arg>) { forall k :: 0 <= k < |args| ==> ArgOk(args[k]) }

  /** White space before every word, so that it is not part of what is before it. */
  predicate Separated(args: seq<Arg>) { forall k :: 0 <= k < |args| ==> args[k].gap != "" }

  function ArgWords(args: seq<Arg>): seq<string> {
    if args == [] then [] else [args[0].word] + ArgWords(args[1..])
  }

  function ArgRedirects(args: seq<Arg>): seq<Redirect> {
    if args == [] then [] else args[0].redirects + ArgRedirects(args[1..])
  }

  /** A simple command ends at e: white space, then the end of the line or one of these. */
  ghost predicate Follow(line: string, e: nat, toks: string) {
    && Clear(line, e)
    && (At(line, SkipSpace(line, e)) == NUL || At(line, SkipSpace(line, e)) in toks)
  }

  lemma ArgParts(line: string, pos: nat, a: Arg)
    requires ArgOk(a) && Has(line, pos, ArgText(a)) && Clear(line, pos + |ArgText(a)|)
    ensures var m := pos + |a.gap| + |a.word|;
            && Has(line, pos, a.gap + a.word) && Has(line, m, RedirectsText(a.redirects)) && Clear(line, m)
            && m + |RedirectsText(a.redirects)| == pos + |ArgText(a)| <= |line|
    ensures IsGap(a.gap) && IsWord(a.word) && RedirectsOk(a.redirects)
  {
    hide *;
    var r := RedirectsText(a.redirects);
    ArgTextIs(a);
    HasSplit(line, pos, a.gap + a.word, r);
    HasInside(line, pos, ArgText(a));
    RedirectsClear(a.redirects);
    ClearBefore(line, pos + |a.gap| + |a.word|, r);
  }

  lemma ArgTextIs(a: Arg)
    requires ArgOk(a)
    ensures ArgText(a) == (a.gap + a.word) + RedirectsText(a.redirects)
    ensures IsGap(a.gap) && IsWord(a.word) && RedirectsOk(a.redirects)
  {
    hide RedirectsText, RedirectsOk, IsWord, IsGap;
    assert a.gap + (a.word + RedirectsText(a.redirects)) == (a.gap + a.word) + RedirectsText(a.redirects);
  }

  lemma ArgStepOnce(line: string, s: nat, argv: seq<Word>, rs: seq<RedirTo>, t: Token, rs': seq<RedirTo>, pos: nat)
    requires s <= |line| && !Peek(line, s, "|)&;") && t == GetToken(line, s) && t.kind == WORD && |argv| + 1 < MAXARGS
    requires ParseRedirs(line, t.next, rs) == Ok(rs', pos)
    ensures pos <= |line| && ParseArgs(line, s, argv, rs) == ParseArgs(line, pos, argv + [Word(t.q, t.eq)], rs')
  {
    hide GetToken, Peek, ParseRedirs;
  }

  lemma WordNoStop(line: string, s: nat, w: string)
    requires IsWord(w) && At(line, SkipSpace(line, s)) == w[0]
    ensures !Peek(line, s, "|)&;") && !Peek(line, s, "(") && !Peek(line, s, "<>")
  {
  }

  /** ParseArgs reads one word and the redirections after it. */
  lemma OneArg(line: string, pos: nat, a: Arg, argv: seq<Word>, rs: seq<RedirTo>) returns (w: Word, tos: seq<RedirTo>)
    requires IsLine(line) && ArgOk(a) && Has(line, pos, ArgText(a)) && Clear(line, pos + |ArgText(a)|)
    requires !Peek(line, pos + |ArgText(a)|, "<>") && |argv| + 1 < MAXARGS
    ensures pos + |ArgText(a)| <= |line| && At(line, SkipSpace(line, pos)) == a.word[0]
    ensures ParseArgs(line, pos, argv, rs) == ParseArgs(line, pos + |ArgText(a)|, argv + [w], rs + tos)
    ensures Text(line, w) == a.word && Match(line, tos, a.redirects)
  {
    hide *;
    ArgParts(line, pos, a);
    var m, e := pos + |a.gap| + |a.word|, pos + |ArgText(a)|;
    GappedWord(line, pos, a.gap, a.word);
    var t := GetToken(line, pos);
    w := Word(t.q, t.eq);
    WordNoStop(line, pos, a.word);
    tos := RedirectsParse(line, m, a.redirects, rs);
    SkipTwice(line, m);
    RedirsSame(line, t.next, m, rs);
    ArgStepOnce(line, pos, argv, rs, t, rs + tos, SkipSpace(line, e));
    SkipTwice(line, e);
    ArgsSame(line, SkipSpace(line, e), e, argv + [w], rs + tos);
  }

  lemma ArgsParts(line: string, pos: nat, args: seq<Arg>)
    requires args != [] && ArgsOk(args) && Separated(args[1..]) && Has(line, pos, ArgsText(args))
    requires Clear(line, pos + |ArgsText(args)|)
    ensures ArgOk(args[0]) && ArgsOk(args[1..]) && Has(line, pos, ArgText(args[0]))
    ensures var m := pos + |ArgText(args[0])|;
            && Has(line, m, ArgsText(args[1..])) && m + |ArgsText(args[1..])| == pos + |ArgsText(args)|
            && Clear(line, m)
  {
    hide *;
    var a, b := ArgText(args[0]), ArgsText(args[1..]);
    ArgsUnfold(args);
    HasSplit(line, pos, a, b);
    ArgsClear(args[1..]);
    ClearBefore(line, pos + |a|, b);
  }

  lemma ArgsUnfold(args: seq<Arg>)
    requires args != [] && ArgsOk(args)
    ensures ArgsText(args) == ArgText(args[0]) + ArgsText(args[1..]) && ArgOk(args[0]) && ArgsOk(args[1..])
  {
    hide ArgOk, ArgText;
  }

  lemma ArgsClear(args: seq<Arg>)
    requires ArgsOk(args) && Separated(args)
    ensures StartsClear(ArgsText(args))
  {
    if args != [] {
      assert ArgOk(args[0]) && args[0].gap != "";
      assert ArgsText(args)[0] == args[0].gap[0];
    }
  }

  /** What comes first in the text of words at pos: the first word, or what follows them. */
  lemma ArgsFirst(line: string, pos: nat, args: seq<Arg>, toks: string)
    requires IsLine(line) && ArgsOk(args) && Has(line, pos, ArgsText(args))
    requires Separated(args[if args == [] then 0 else 1..])
    requires Follow(line, pos + |ArgsText(args)|, toks) && '<' !in toks && '>' !in toks && '(' !in toks
    ensures !Peek(line, pos, "<>") && !Peek(line, pos, "(")
    ensures pos + |ArgsText(args)| <= |line|
  {
    hide *;
    HasInside(line, pos, ArgsText(args));
    if args == [] {
      NoText();
      FollowNot(line, pos, toks);
    } else {
      FollowClear(line, pos + |ArgsText(args)|, toks);
      ArgsParts(line, pos, args);
      ArgParts(line, pos, args[0]);
      GappedWord(line, pos, args[0].gap, args[0].word);
      WordNoStop(line, pos, args[0].word);
    }
  }

  lemma FollowClear(line: string, e: nat, toks: string)
    requires Follow(line, e, toks)
    ensures Clear(line, e) && e <= |line|
  {
  }

  lemma FollowNot(line: string, e: nat, toks: string)
    requires Follow(line, e, toks) && '<' !in toks && '>' !in toks && '(' !in toks
    ensures !Peek(line, e, "<>") && !Peek(line, e, "(")
  {
  }

  lemma ArgsEnd(line: string, e: nat, argv: seq<Word>, rs: seq<RedirTo>)
    requires IsLine(line) && Follow(line, e, "|)&;")
    ensures e <= |line| && ParseArgs(line, e, argv, rs) == Ok((argv, rs + []), SkipSpace(line, e))
  {
    assert rs + [] == rs;
  }

  lemma MatchJoin(line: string, a: seq<RedirTo>, x: seq<Redirect>, b: seq<RedirTo>, y: seq<Redirect>)
    requires Match(line, a, x) && Match(line, b, y)
    ensures Match(line, a + b, x + y)
  {
  }

  lemma ArgsMore(args: seq<Arg>)
    requires args != []
    ensures ArgWords(args) == [args[0].word] + ArgWords(args[1..])
    ensures ArgRedirects(args) == args[0].redirects + ArgRedirects(args[1..])
    ensures Separated(args[1..]) ==> Separated(args[1..][if args[1..] == [] then 0 else 1..])
  {
  }

  lemma ArgsNone()
    ensures ArgWords([]) == [] && ArgRedirects([]) == []
  {
  }

  /** ParseArgs reads all words in order, and all redirections in order. */
  lemma {:induction false} ArgsParse(line: string, pos: nat, args: seq<Arg>, argv: seq<Word>, rs: seq<RedirTo>)
    returns (all: seq<Word>, tos: seq<RedirTo>)
    requires IsLine(line) && ArgsOk(args) && Separated(args[if args == [] then 0 else 1..])
    requires Has(line, pos, ArgsText(args)) && Follow(line, pos + |ArgsText(args)|, "|)&;")
    requires |argv| + |args| < MAXARGS
    ensures pos + |ArgsText(args)| <= |line|
    ensures ParseArgs(line, pos, argv, rs) == Ok((all, rs + tos), SkipSpace(line, pos + |ArgsText(args)|))
    ensures Texts(line, all) == Texts(line, argv) + ArgWords(args) && Match(line, tos, ArgRedirects(args))
    decreases |args|
  {
    hide *;
    var e := pos + |ArgsText(args)|;
    FollowClear(line, e, "|)&;");
    if args == [] {
      NoText();
      ArgsNone();
      ArgsEnd(line, pos, argv, rs);
      RedirectsNone(line);
      all, tos := argv, [];
    } else {
      ArgsParts(line, pos, args);
      ArgsMore(args);
      var m := pos + |ArgText(args[0])|;
      ArgsFirst(line, m, args[1..], "|)&;");
      var w, a := OneArg(line, pos, args[0], argv, rs);
      var b;
      all, b := ArgsParse(line, m, args[1..], argv + [w], rs + a);
      tos := a + b;
      TextsSnoc(line, argv, w);
      assert Texts(line, argv) + [args[0].word] + ArgWords(args[1..]) == Texts(line, argv) + ArgWords(args);
      assert rs + a + b == rs + tos;
      MatchJoin(line, a, args[0].redirects, b, ArgRedirects(args[1..]));
    }
  }

  lemma RedirectsNone(line: string)
    ensures Match(line, [], [])
  {
  }

  // ----- commands

  /** A line as it stands.  Simple and Block are what parseexec reads, Piped what parsepipe reads besides them, Ended a
      pipeline with its "&"s, Listed a line with a ";" in it. */
  datatype Source =
    | Simple(before: seq<Redirect>, args: seq<Arg>)
    | Block(gap: string, body: Source, gap2: string, after: seq<Redirect>)
    | Piped(left: Source, gap: string, right: Source)
    | Ended(pipe: Source, backs: seq<string>)
    | Listed(first: Source, gap: string, rest: Source)

  predicate IsExec(s: Source) { s.Simple? || s.Block? }

  predicate IsPipe(s: Source) { IsExec(s) || s.Piped? }

  predicate IsWhole(s: Source) { s.Ended? || s.Listed? }

  /** "|" takes a simple command or a block on its left and a pipeline on its right, "&" follows a pipeline, ";" takes
      that on its left and any line on its right. */
  predicate SourceOk(s: Source) {
    match s
    case Simple(before, args) =>
      && RedirectsOk(before) && ArgsOk(args) && |args| < MAXARGS
      && Separated(args[if args == [] then 0 else 1..]) && (before != [] ==> Separated(args))
    case Block(gap, body, gap2, after) =>
      IsGap(gap) && IsGap(gap2) && IsWhole(body) && SourceOk(body) && RedirectsOk(after)
    case Piped(left, gap, right) => IsGap(gap) && IsExec(left) && SourceOk(left) && IsPipe(right) && SourceOk(right)
    case Ended(pipe, backs) => IsPipe(pipe) && SourceOk(pipe) && BacksOk(backs)
    case Listed(first, gap, rest) => IsGap(gap) && first.Ended? && SourceOk(first) && IsWhole(rest) && SourceOk(rest)
  }

  function BacksText(backs: seq<string>): string {
    if backs == [] then "" else backs[0] + "&" + BacksText(backs[1..])
  }

  function SourceText(s: Source): string {
    match s
    case Simple(before, args) => RedirectsText(before) + ArgsText(args)
    case Block(gap, body, gap2, after) => gap + "(" + (SourceText(body) + (gap2 + ")" + RedirectsText(after)))
    case Piped(left, gap, right) => SourceText(left) + (gap + "|" + SourceText(right))
    case Ended(pipe, backs) => SourceText(pipe) + BacksText(backs)
    case Listed(first, gap, rest) => SourceText(first) + (gap + ";" + SourceText(rest))
  }

  /** t with redirections around it, the first innermost. */
  function Redirected(t: Tree, rs: seq<Redirect>): Tree
    decreases |rs|
  {
    if rs == [] then t else Redirected(TRedir(t, rs[0].how, rs[0].file), rs[1..])
  }

  function Backed(t: Tree, n: nat): Tree
    decreases n
  {
    if n == 0 then t else Backed(TBack(t), n - 1)
  }

  /** What the line means. */
  function Denotes(s: Source): Tree {
    match s
    case Simple(before, args) => Redirected(TExec(ArgWords(args)), before + ArgRedirects(args))
    case Block(_, body, _, after) => Redirected(Denotes(body), after)
    case Piped(left, _, right) => TPipe(Denotes(left), Denotes(right))
    case Ended(pipe, backs) => Backed(Denotes(pipe), |backs|)
    case Listed(first, _, rest) => TList(Denotes(first), Denotes(rest))
  }

  // ----- how the parse functions go on

  /** A symbol after white space. */
  lemma GappedSymbol(line: string, pos: nat, g: string, ch: char)
    requires IsGap(g) && Has(line, pos, g + [ch]) && Symbol(ch) && ch != '>'
    ensures pos + |g| + 1 <= |line| && SkipSpace(line, pos) == pos + |g| && At(line, pos + |g|) == ch && ch != NUL
    ensures GetToken(line, pos).next == SkipSpace(line, pos + |g| + 1) && Clear(line, pos)
    ensures forall toks :: Peek(line, pos, toks) <==> ch in toks
  {
    hide *;
    HasSplit(line, pos, g, [ch]);
    GapSkip(line, pos, g);
    HasInside(line, pos, g);
    BareSymbol(line, pos + |g|, ch);
    SameStart(line, pos, pos + |g|);
    GapClear(line, pos, g);
  }

  lemma BareSymbol(line: string, m: nat, ch: char)
    requires Has(line, m, [ch]) && Symbol(ch) && ch != '>'
    ensures m + 1 <= |line| && SkipSpace(line, m) == m && At(line, m) == ch && ch != NUL && Clear(line, m)
    ensures GetToken(line, m).next == SkipSpace(line, m + 1)
    ensures forall toks :: Peek(line, m, toks) <==> ch in toks
  {
    assert line[m] == line[m..m + 1][0];
    RestsSkip(line, m);
  }

  lemma GapClear(line: string, pos: nat, g: string)
    requires IsGap(g) && Has(line, pos, g) && Clear(line, pos + |g|)
    ensures Clear(line, pos)
  {
    if g != "" {
      assert line[pos] == line[pos..pos + |g|][0];
    }
  }

  lemma ExecSame(line: string, s: nat, s': nat)
    requires s <= |line| && s' <= |line| && SkipSpace(line, s) == SkipSpace(line, s')
    ensures ParseExec(line, s) == ParseExec(line, s')
  {
    SameStart(line, s, s');
    RedirsSame(line, s, s', []);
    hide GetToken, Peek, ParseRedirs, ParseArgs, ParseLine;
  }

  lemma PipeSame(line: string, s: nat, s': nat)
    requires s <= |line| && s' <= |line| && SkipSpace(line, s) == SkipSpace(line, s')
    ensures ParsePipe(line, s) == ParsePipe(line, s')
  {
    ExecSame(line, s, s');
    hide GetToken, Peek, ParseExec;
  }

  lemma LineSame(line: string, s: nat, s': nat)
    requires s <= |line| && s' <= |line| && SkipSpace(line, s) == SkipSpace(line, s')
    ensures ParseLine(line, s) == ParseLine(line, s')
  {
    PipeSame(line, s, s');
    hide GetToken, Peek, ParsePipe, ParseBacks;
  }

  lemma BacksSame(line: string, s: nat, s': nat, c: Cmd)
    requires s <= |line| && s' <= |line| && SkipSpace(line, s) == SkipSpace(line, s')
    ensures ParseBacks(line, s, c) == ParseBacks(line, s', c)
  {
    SameStart(line, s, s');
    hide GetToken, Peek;
  }

  /** A follower is not one of these. */
  lemma FollowOnly(line: string, e: nat, toks: string, others: string)
    requires Follow(line, e, toks) && forall ch :: ch in toks ==> ch !in others
    ensures e <= |line| && !Peek(line, e, others) && !Peek(line, SkipSpace(line, e), others)
  {
    SkipTwice(line, e);
  }

  lemma FollowMore(line: string, e: nat, toks: string, more: string)
    requires Follow(line, e, toks) && forall ch :: ch in toks ==> ch in more
    ensures Follow(line, e, more)
  {
  }

  lemma SymbolFollows(line: string, e: nat, g: string, ch: char, toks: string)
    requires IsGap(g) && Has(line, e, g + [ch]) && Symbol(ch) && ch != '>' && ch in toks
    ensures Follow(line, e, toks)
  {
    hide SkipSpace, GetToken, Peek;
    GappedSymbol(line, e, g, ch);
  }

  // ----- meanings

  lemma {:induction false} WrapMeans(line: string, c: Cmd, tos: seq<RedirTo>, rs: seq<Redirect>)
    requires Match(line, tos, rs)
    ensures Meaning(line, Wrap(c, tos)) == Redirected(Meaning(line, c), rs)
    decreases |rs|
  {
    if rs != [] {
      assert Meaning(line, Redir(c, tos[0])) == TRedir(Meaning(line, c), rs[0].how, rs[0].file);
      WrapMeans(line, Redir(c, tos[0]), tos[1..], rs[1..]);
    }
  }

  // ----- simple commands

  lemma SimpleParts(line: string, pos: nat, s: Source)
    requires s.Simple? && SourceOk(s) && Has(line, pos, SourceText(s)) && Clear(line, pos + |SourceText(s)|)
    ensures var m := pos + |RedirectsText(s.before)|;
            && Has(line, pos, RedirectsText(s.before)) && Has(line, m, ArgsText(s.args))
            && m + |ArgsText(s.args)| == pos + |SourceText(s)| <= |line|
            && (s.before != [] ==> Clear(line, m))
    ensures RedirectsOk(s.before) && ArgsOk(s.args) && |s.args| < MAXARGS
    ensures Separated(s.args[if s.args == [] then 0 else 1..])
  {
    HasSplit(line, pos, RedirectsText(s.before), ArgsText(s.args));
    if s.before != [] {
      ArgsClear(s.args);
      ClearBefore(line, pos + |RedirectsText(s.before)|, ArgsText(s.args));
    }
  }

  /** The redirections that come first. */
  lemma BeforeParses(line: string, pos: nat, rs: seq<Redirect>) returns (tos: seq<RedirTo>)
    requires IsLine(line) && RedirectsOk(rs) && Has(line, pos, RedirectsText(rs))
    requires rs != [] ==> Clear(line, pos + |RedirectsText(rs)|)
    requires !Peek(line, pos + |RedirectsText(rs)|, "<>") && !Peek(line, pos + |RedirectsText(rs)|, "(")
    ensures pos + |RedirectsText(rs)| <= |line| && Match(line, tos, rs) && !Peek(line, pos, "(")
    ensures ParseRedirs(line, pos, []) == Ok(tos, SkipSpace(line, pos + |RedirectsText(rs)|))
  {
    hide *;
    HasInside(line, pos, RedirectsText(rs));
    if rs == [] {
      NoText();
      RedirectsEnd(line, pos, []);
      tos := [];
      assert [] + tos == tos;
    } else {
      tos := RedirectsParse(line, pos, rs, []);
      assert [] + tos == tos;
      RedirectsParts(line, pos, rs);
      RedirectParts(line, pos, rs[0]);
      RedirectOkParts(rs[0]);
      GappedOp(line, pos, rs[0].gap, rs[0].how);
      PeekOne(line, pos);
    }
  }

  lemma PeekOne(line: string, s: nat)
    requires Peek(line, s, "<>")
    ensures !Peek(line, s, "(")
  {
  }

  lemma SimpleAssemble(line: string, pos: nat, tos: seq<RedirTo>, m: nat, all: seq<Word>, more: seq<RedirTo>, e: nat)
    requires pos <= |line| && !Peek(line, pos, "(") && ParseRedirs(line, pos, []) == Ok(tos, m) && m <= |line|
    requires ParseArgs(line, m, [], tos) == Ok((all, more), e)
    ensures ParseExec(line, pos) == Ok(Wrap(Exec(all), more), e)
  {
    hide Peek, ParseRedirs, ParseArgs, Wrap;
  }

  lemma SimpleParses(line: string, pos: nat, s: Source) returns (c: Cmd)
    requires IsLine(line) && s.Simple? && SourceOk(s) && Has(line, pos, SourceText(s))
    requires Follow(line, pos + |SourceText(s)|, "|)&;")
    ensures pos + |SourceText(s)| <= |line|
    ensures ParseExec(line, pos) == Ok(c, SkipSpace(line, pos + |SourceText(s)|)) && Meaning(line, c) == Denotes(s)
  {
    hide *;
    var e := pos + |SourceText(s)|;
    FollowClear(line, e, "|)&;");
    SimpleParts(line, pos, s);
    var m := pos + |RedirectsText(s.before)|;
    ArgsFirst(line, m, s.args, "|)&;");
    var tos := BeforeParses(line, pos, s.before);
    var all, more := ArgsParse(line, m, s.args, [], tos);
    SkipTwice(line, m);
    ArgsSame(line, SkipSpace(line, m), m, [], tos);
    SimpleAssemble(line, pos, tos, SkipSpace(line, m), all, tos + more, SkipSpace(line, e));
    c := Wrap(Exec(all), tos + more);
    MatchJoin(line, tos, s.before, more, ArgRedirects(s.args));
    WrapMeans(line, Exec(all), tos + more, s.before + ArgRedirects(s.args));
    SimpleMeans(line, s, all);
  }

  lemma SimpleMeans(line: string, s: Source, all: seq<Word>)
    requires s.Simple? && Texts(line, all) == Texts(line, []) + ArgWords(s.args)
    ensures Denotes(s) == Redirected(Meaning(line, Exec(all)), s.before + ArgRedirects(s.args))
  {
    assert [] + ArgWords(s.args) == ArgWords(s.args);
  }

  // ----- blocks

  lemma BlockPieces(line: string, pos: nat, s: Source)
    requires s.Block? && SourceOk(s) && Has(line, pos, SourceText(s))
    ensures var b := pos + |s.gap| + 1;
            var f := b + |SourceText(s.body)|;
            var a := f + |s.gap2| + 1;
            && Has(line, pos, s.gap + ['(']) && Has(line, b, SourceText(s.body)) && Has(line, f, s.gap2 + [')'])
            && Has(line, a, RedirectsText(s.after)) && a + |RedirectsText(s.after)| == pos + |SourceText(s)| <= |line|
    ensures IsGap(s.gap) && IsGap(s.gap2) && IsWhole(s.body) && SourceOk(s.body) && RedirectsOk(s.after)
  {
    hide *;
    var x, y, z := s.gap + "(", SourceText(s.body), RedirectsText(s.after);
    var w := s.gap2 + ")";
    BlockUnfold(s);
    HasSplit(line, pos, x, y + (w + z));
    HasSplit(line, pos + |x|, y, w + z);
    HasSplit(line, pos + |x| + |y|, w, z);
    HasInside(line, pos, SourceText(s));
  }

  lemma BlockUnfold(s: Source)
    requires s.Block? && SourceOk(s)
    ensures SourceText(s) == s.gap + "(" + (SourceText(s.body) + (s.gap2 + ")" + RedirectsText(s.after)))
    ensures IsGap(s.gap) && IsGap(s.gap2) && IsWhole(s.body) && SourceOk(s.body) && RedirectsOk(s.after)
  {
  }

  lemma BlockJoins(line: string, pos: nat, b: nat, c: Cmd, f: nat, a: nat, tos: seq<RedirTo>, e: nat)
    requires pos <= |line| && Peek(line, pos, "(") && GetToken(line, pos).next == b <= |line|
    requires ParseLine(line, b) == Ok(c, f) && f <= |line|
    requires Peek(line, f, ")") && GetToken(line, f).next == a <= |line|
    requires ParseRedirs(line, a, []) == Ok(tos, e)
    ensures ParseExec(line, pos) == Ok(Wrap(c, tos), e)
  {
    hide Peek, GetToken, ParseRedirs, ParseLine, Wrap;
  }

  lemma BlockMeans(s: Source)
    requires s.Block?
    ensures Denotes(s) == Redirected(Denotes(s.body), s.after)
  {
  }

  lemma BlockSource(line: string, pos: nat, s: Source) returns (c: Cmd)
    requires IsLine(line) && s.Block? && SourceOk(s) && Has(line, pos, SourceText(s))
    requires Follow(line, pos + |SourceText(s)|, "|)&;")
    ensures pos + |SourceText(s)| <= |line|
    ensures ParseExec(line, pos) == Ok(c, SkipSpace(line, pos + |SourceText(s)|)) && Meaning(line, c) == Denotes(s)
    decreases s, 0
  {
    hide *;
    var e := pos + |SourceText(s)|;
    FollowClear(line, e, "|)&;");
    FollowOnly(line, e, "|)&;", "<>");
    BlockPieces(line, pos, s);
    var b := pos + |s.gap| + 1;
    var f := b + |SourceText(s.body)|;
    var a := f + |s.gap2| + 1;
    SymbolsAre();
    GappedSymbol(line, pos, s.gap, '(');
    GappedSymbol(line, f, s.gap2, ')');
    SymbolFollows(line, f, s.gap2, ')', ")");
    var body := WholeSource(line, b, s.body);
    SkipTwice(line, b);
    LineSame(line, SkipSpace(line, b), b);
    SkipTwice(line, f);
    SameStart(line, SkipSpace(line, f), f);
    var tos := RedirectsParse(line, a, s.after, []);
    assert [] + tos == tos;
    SkipTwice(line, a);
    RedirsSame(line, SkipSpace(line, a), a, []);
    BlockJoins(line, pos, SkipSpace(line, b), body, SkipSpace(line, f), SkipSpace(line, a), tos, SkipSpace(line, e));
    c := Wrap(body, tos);
    WrapMeans(line, body, tos, s.after);
    BlockMeans(s);
  }

  lemma SymbolsAre()
    ensures Symbol('(') && Symbol(')') && Symbol('|') && Symbol('&') && Symbol(';')
    ensures '(' in "(" && ')' in ")" && '|' in "|" && '&' in "&" && ';' in ";" && '|' in "|)&;" && ';' in ");"
    ensures '&' in ")&;" && ')' in ")&;" && ')' in ");"
    ensures '|' !in "<>" && '&' !in "<>"
  {
  }

  lemma ExecSource(line: string, pos: nat, s: Source) returns (c: Cmd)
    requires IsLine(line) && IsExec(s) && SourceOk(s) && Has(line, pos, SourceText(s))
    requires Follow(line, pos + |SourceText(s)|, "|)&;")
    ensures pos + |SourceText(s)| <= |line|
    ensures ParseExec(line, pos) == Ok(c, SkipSpace(line, pos + |SourceText(s)|)) && Meaning(line, c) == Denotes(s)
    decreases s, 1
  {
    if s.Simple? {
      c := SimpleParses(line, pos, s);
    } else {
      c := BlockSource(line, pos, s);
    }
  }

  // ----- pipelines

  /** Where the parts of a command with a symbol in it are. */
  lemma InfixPieces(line: string, pos: nat, x: string, g: string, ch: char, y: string)
    requires Has(line, pos, x + (g + [ch] + y))
    ensures var m := pos + |x|;
            && Has(line, pos, x) && Has(line, m, g + [ch]) && Has(line, m + |g| + 1, y)
            && m + |g| + 1 + |y| == pos + |x + (g + [ch] + y)| <= |line|
  {
    var z := g + [ch];
    HasSplit(line, pos, x, z + y);
    HasSplit(line, pos + |x|, z, y);
  }

  lemma PipedUnfold(s: Source)
    requires s.Piped? && SourceOk(s)
    ensures SourceText(s) == SourceText(s.left) + (s.gap + ['|'] + SourceText(s.right))
    ensures IsGap(s.gap) && IsExec(s.left) && SourceOk(s.left) && IsPipe(s.right) && SourceOk(s.right)
    ensures Denotes(s) == TPipe(Denotes(s.left), Denotes(s.right))
  {
  }

  lemma PipeJoins(line: string, pos: nat, l: Cmd, m: nat, r: nat, right: Cmd, e: nat)
    requires pos <= |line| && ParseExec(line, pos) == Ok(l, m) && m <= |line| && Peek(line, m, "|")
    requires GetToken(line, m).next == r <= |line| && ParsePipe(line, r) == Ok(right, e)
    ensures ParsePipe(line, pos) == Ok(Pipe(l, right), e)
  {
    hide Peek, GetToken, ParseExec;
    PeekIsToken(line, m, "|");
  }

  lemma PipeAlone(line: string, pos: nat, c: Cmd, e: nat)
    requires pos <= |line| && e <= |line| && ParseExec(line, pos) == Ok(c, SkipSpace(line, e))
    requires !Peek(line, SkipSpace(line, e), "|")
    ensures ParsePipe(line, pos) == Ok(c, SkipSpace(line, e))
  {
    hide Peek, GetToken, ParseExec;
    SkipTwice(line, e);
  }

  lemma PipeSource(line: string, pos: nat, s: Source) returns (c: Cmd)
    requires IsLine(line) && IsPipe(s) && SourceOk(s) && Has(line, pos, SourceText(s))
    requires Follow(line, pos + |SourceText(s)|, ")&;")
    ensures pos + |SourceText(s)| <= |line|
    ensures ParsePipe(line, pos) == Ok(c, SkipSpace(line, pos + |SourceText(s)|)) && Meaning(line, c) == Denotes(s)
    decreases s, 2
  {
    hide *;
    var e := pos + |SourceText(s)|;
    FollowClear(line, e, ")&;");
    FollowOnly(line, e, ")&;", "|");
    FollowMore(line, e, ")&;", "|)&;");
    SymbolsAre();
    PipeIs(s);
    if s.Piped? {
      PipedUnfold(s);
      var m := pos + |SourceText(s.left)|;
      InfixPieces(line, pos, SourceText(s.left), s.gap, '|', SourceText(s.right));
      SymbolFollows(line, m, s.gap, '|', "|)&;");
      GappedSymbol(line, m, s.gap, '|');
      var l := ExecSource(line, pos, s.left);
      var rpos := m + |s.gap| + 1;
      var r := PipeSource(line, rpos, s.right);
      SkipTwice(line, m);
      SameStart(line, SkipSpace(line, m), m);
      SkipTwice(line, rpos);
      PipeSame(line, SkipSpace(line, rpos), rpos);
      PipeJoins(line, pos, l, SkipSpace(line, m), SkipSpace(line, rpos), r, SkipSpace(line, e));
      c := Pipe(l, r);
      PipeMeans(line, l, r);
    } else {
      c := ExecSource(line, pos, s);
      PipeAlone(line, pos, c, e);
    }
  }

  lemma PipeIs(s: Source)
    requires IsPipe(s)
    ensures s.Piped? || IsExec(s)
  {
  }

  lemma PipeMeans(line: string, l: Cmd, r: Cmd)
    ensures Meaning(line, Pipe(l, r)) == TPipe(Meaning(line, l), Meaning(line, r))
    ensures Meaning(line, List(l, r)) == TList(Meaning(line, l), Meaning(line, r))
    ensures Meaning(line, Back(l)) == TBack(Meaning(line, l))
  {
  }

  // ----- lines

  predicate BacksOk(backs: seq<string>) { forall k :: 0 <= k < |backs| ==> IsGap(backs[k]) }

  lemma BacksUnfold(line: string, pos: nat, backs: seq<string>)
    requires backs != [] && BacksOk(backs) && Has(line, pos, BacksText(backs))
    ensures var m := pos + |backs[0]| + 1;
            && Has(line, pos, backs[0] + ['&']) && Has(line, m, BacksText(backs[1..]))
            && m + |BacksText(backs[1..])| == pos + |BacksText(backs)|
            && IsGap(backs[0]) && BacksOk(backs[1..])
  {
    HasSplit(line, pos, backs[0] + "&", BacksText(backs[1..]));
  }

  lemma BackOnce(line: string, s: nat, c: Cmd, next: nat)
    requires s <= |line| && Peek(line, s, "&") && GetToken(line, s).next == next
    ensures next <= |line| && ParseBacks(line, s, c) == ParseBacks(line, next, Back(c))
  {
    hide Peek, GetToken;
  }

  lemma BacksDone(line: string, e: nat, c: Cmd)
    requires e <= |line| && !Peek(line, e, "&")
    ensures ParseBacks(line, e, c) == (c, SkipSpace(line, e)) && BacksText([]) == ""
  {
  }

  lemma BackedMore(t: Tree, n: nat)
    ensures Backed(t, n + 1) == Backed(TBack(t), n) && Backed(t, 0) == t
  {
  }

  lemma {:induction false} BacksParse(line: string, pos: nat, backs: seq<string>, c: Cmd, toks: string)
    returns (r: Cmd)
    requires BacksOk(backs) && Has(line, pos, BacksText(backs)) && Follow(line, pos + |BacksText(backs)|, toks)
    requires '&' !in toks
    ensures pos <= pos + |BacksText(backs)| <= |line|
    ensures ParseBacks(line, pos, c) == (r, SkipSpace(line, pos + |BacksText(backs)|))
    ensures Meaning(line, r) == Backed(Meaning(line, c), |backs|)
    decreases |backs|
  {
    hide *;
    var e := pos + |BacksText(backs)|;
    HasInside(line, pos, BacksText(backs));
    if backs == [] {
      FollowOnly(line, e, toks, "&");
      NoBacks();
      BacksDone(line, pos, c);
      BackedMore(Meaning(line, c), 0);
      r := c;
    } else {
      BacksUnfold(line, pos, backs);
      SymbolsAre();
      GappedSymbol(line, pos, backs[0], '&');
      var m := pos + |backs[0]| + 1;
      BackOnce(line, pos, c, SkipSpace(line, m));
      SkipTwice(line, m);
      BacksSame(line, SkipSpace(line, m), m, Back(c));
      r := BacksParse(line, m, backs[1..], Back(c), toks);
      PipeMeans(line, c, c);
      BackedMore(Meaning(line, c), |backs| - 1);
    }
  }

  lemma NoBacks()
    ensures BacksText([]) == ""
  {
  }

  lemma EndedUnfold(line: string, pos: nat, s: Source)
    requires s.Ended? && SourceOk(s) && Has(line, pos, SourceText(s))
    ensures var m := pos + |SourceText(s.pipe)|;
            && Has(line, pos, SourceText(s.pipe)) && Has(line, m, BacksText(s.backs))
            && m + |BacksText(s.backs)| == pos + |SourceText(s)|
    ensures IsPipe(s.pipe) && SourceOk(s.pipe) && BacksOk(s.backs) && Denotes(s) == Backed(Denotes(s.pipe), |s.backs|)
  {
    HasSplit(line, pos, SourceText(s.pipe), BacksText(s.backs));
  }

  /** What follows a pipeline that may have "&"s. */
  lemma BacksFollow(line: string, m: nat, backs: seq<string>, toks: string)
    requires BacksOk(backs) && Has(line, m, BacksText(backs)) && Follow(line, m + |BacksText(backs)|, toks)
    requires forall ch :: ch in toks ==> ch in ")&;"
    ensures Follow(line, m, ")&;")
  {
    hide *;
    if backs == [] {
      NoBacks();
      FollowMore(line, m, toks, ")&;");
    } else {
      BacksUnfold(line, m, backs);
      SymbolsAre();
      SymbolFollows(line, m, backs[0], '&', ")&;");
    }
  }

  /** A pipeline with its "&"s, up to the ";" or the end. */
  lemma EndedSource(line: string, pos: nat, s: Source, toks: string) returns (first: Cmd, p: nat, c: Cmd)
    requires IsLine(line) && s.Ended? && SourceOk(s) && Has(line, pos, SourceText(s))
    requires Follow(line, pos + |SourceText(s)|, toks) && (toks == ")" || toks == ";")
    ensures pos <= pos + |SourceText(s)| <= |line| && p <= |line| && ParsePipe(line, pos) == Ok(first, p)
    ensures ParseBacks(line, p, first) == (c, SkipSpace(line, pos + |SourceText(s)|)) && Meaning(line, c) == Denotes(s)
    decreases s, 3
  {
    hide *;
    EndedUnfold(line, pos, s);
    var m := pos + |SourceText(s.pipe)|;
    SymbolsAre();
    BacksFollow(line, m, s.backs, toks);
    first := PipeSource(line, pos, s.pipe);
    p := SkipSpace(line, m);
    FollowClear(line, m, ")&;");
    c := BacksParse(line, m, s.backs, first, toks);
    SkipTwice(line, m);
    BacksSame(line, p, m, first);
  }

  lemma LineAlone(line: string, pos: nat, first: Cmd, p: nat, c: Cmd, e: nat)
    requires pos <= |line| && p <= |line| && e <= |line| && ParsePipe(line, pos) == Ok(first, p)
    requires ParseBacks(line, p, first) == (c, SkipSpace(line, e)) && !Peek(line, SkipSpace(line, e), ";")
    ensures ParseLine(line, pos) == Ok(c, SkipSpace(line, e))
  {
    hide Peek, GetToken, ParsePipe, ParseBacks;
    SkipTwice(line, e);
  }

  lemma LineJoins(line: string, pos: nat, first: Cmd, p: nat, c: Cmd, m: nat, r: nat, rest: Cmd, e: nat)
    requires pos <= |line| && p <= |line| && m <= |line| && ParsePipe(line, pos) == Ok(first, p)
    requires ParseBacks(line, p, first) == (c, m) && Peek(line, m, ";")
    requires GetToken(line, m).next == r <= |line| && ParseLine(line, r) == Ok(rest, e)
    ensures ParseLine(line, pos) == Ok(List(c, rest), e)
  {
    hide Peek, GetToken, ParsePipe, ParseBacks;
  }

  lemma ListedUnfold(s: Source)
    requires s.Listed? && SourceOk(s)
    ensures SourceText(s) == SourceText(s.first) + (s.gap + [';'] + SourceText(s.rest))
    ensures IsGap(s.gap) && s.first.Ended? && SourceOk(s.first) && IsWhole(s.rest) && SourceOk(s.rest)
    ensures Denotes(s) == TList(Denotes(s.first), Denotes(s.rest))
  {
  }

  lemma WholeIs(s: Source)
    requires IsWhole(s)
    ensures s.Ended? || s.Listed?
  {
  }

  lemma WholeSource(line: string, pos: nat, s: Source) returns (c: Cmd)
    requires IsLine(line) && IsWhole(s) && SourceOk(s) && Has(line, pos, SourceText(s))
    requires Follow(line, pos + |SourceText(s)|, ")")
    ensures pos + |SourceText(s)| <= |line|
    ensures ParseLine(line, pos) == Ok(c, SkipSpace(line, pos + |SourceText(s)|)) && Meaning(line, c) == Denotes(s)
    decreases s, 4
  {
    hide *;
    var e := pos + |SourceText(s)|;
    FollowClear(line, e, ")");
    WholeIs(s);
    SymbolsAre();
    if s.Ended? {
      FollowOnly(line, e, ")", ";");
      var first, p;
      first, p, c := EndedSource(line, pos, s, ")");
      LineAlone(line, pos, first, p, c, e);
    } else {
      ListedUnfold(s);
      var m := pos + |SourceText(s.first)|;
      InfixPieces(line, pos, SourceText(s.first), s.gap, ';', SourceText(s.rest));
      SymbolFollows(line, m, s.gap, ';', ";");
      GappedSymbol(line, m, s.gap, ';');
      var first, p, l := EndedSource(line, pos, s.first, ";");
      var rpos := m + |s.gap| + 1;
      var r := WholeSource(line, rpos, s.rest);
      SkipTwice(line, m);
      SameStart(line, SkipSpace(line, m), m);
      SkipTwice(line, rpos);
      LineSame(line, SkipSpace(line, rpos), rpos);
      LineJoins(line, pos, first, p, l, SkipSpace(line, m), SkipSpace(line, rpos), r, SkipSpace(line, e));
      c := List(l, r);
      PipeMeans(line, l, r);
    }
  }

  // ----- whole lines

  lemma LineOf(a: string, b: string)
    requires IsLine(a) && IsLine(b)
    ensures IsLine(a + b)
  {
  }

  lemma {:induction false} RedirectsLine(rs: seq<Redirect>)
    requires RedirectsOk(rs)
    ensures IsLine(RedirectsText(rs))
  {
    if rs != [] {
      RedirectsLine(rs[1..]);
      assert RedirectOk(rs[0]);
      assert IsLine(RedirectText(rs[0]));
    }
  }

  lemma {:induction false} ArgsLine(args: seq<Arg>)
    requires ArgsOk(args)
    ensures IsLine(ArgsText(args))
  {
    if args != [] {
      ArgsLine(args[1..]);
      assert ArgOk(args[0]);
      RedirectsLine(args[0].redirects);
      assert IsLine(ArgText(args[0]));
    }
  }

  lemma {:induction false} BacksLine(backs: seq<string>)
    requires BacksOk(backs)
    ensures IsLine(BacksText(backs))
  {
    if backs != [] {
      BacksLine(backs[1..]);
    }
  }

  /** The text has no NUL in it. */
  lemma {:induction false} SourceLine(s: Source)
    requires SourceOk(s)
    ensures IsLine(SourceText(s))
  {
    match s
    case Simple(before, args) =>
      RedirectsLine(before);
      ArgsLine(args);
      LineOf(RedirectsText(before), ArgsText(args));
    case Block(_, body, _, after) =>
      SourceLine(body);
      RedirectsLine(after);
    case Piped(left, _, right) =>
      SourceLine(left);
      SourceLine(right);
    case Ended(pipe, backs) =>
      SourceLine(pipe);
      BacksLine(backs);
    case Listed(first, _, rest) =>
      SourceLine(first);
      SourceLine(rest);
  }

  /** Every line of these forms, with any white space at its end, parses as what it means, to its last byte. */
  lemma SourceParses(s: Source, tail: string) returns (c: Cmd)
    requires IsWhole(s) && SourceOk(s) && IsGap(tail)
    ensures ParseCmd(SourceText(s) + tail) == Ok(c, |SourceText(s) + tail|)
    ensures Meaning(SourceText(s) + tail, c) == Denotes(s)
  {
    var line, e := SourceText(s) + tail, |SourceText(s)|;
    assert line[0..0 + e] == SourceText(s);
    assert line[e..e + |tail|] == tail;
    TailFollows(line, e, tail);
    SourceLine(s);
    LineOf(SourceText(s), tail);
    hide *;
    c := WholeSource(line, 0, s);
    SkipTwice(line, e);
    Whole(line, c, e);
  }

  lemma TailFollows(line: string, e: nat, tail: string)
    requires IsGap(tail) && Has(line, e, tail) && e + |tail| == |line|
    ensures Follow(line, e, ")") && SkipSpace(line, e) == |line|
  {
    GapSkip(line, e, tail);
    if tail != "" {
      assert line[e] == line[e..e + |tail|][0];
    }
  }

  lemma Whole(line: string, c: Cmd, e: nat)
    requires e <= |line| && ParseLine(line, 0) == Ok(c, SkipSpace(line, e)) && SkipSpace(line, e) == |line|
    ensures ParseCmd(line) == Ok(c, |line|)
  {
    hide ParseLine;
    SkipTwice(line, e);
  }
}
