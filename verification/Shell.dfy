/**
 The shell's parser (user/sh.c): a recursive-descent parser that advances one
 cursor over the line, and the pass that puts NULs at the ends of the words. The
 ghost parameters wc and wm of the parsing methods stand for any command and
 position: if the grammar allows them, they are what the parser finds.
 */
module Shell {
  import opened ShellGrammar

  const NUL: char := 0 as char
  const MAXARGS: nat := 10

  datatype Result = Ok(cmd: Cmd) | Panic

  /** The first position from s on that is not white space. */
  function Skip(t: string, s: nat): (r: nat)
    requires s <= |t|
    ensures s <= r && Gap(t, s, r)
    decreases |t| - s
  {
    if s < |t| && IsSpace(t[s]) then Skip(t, s + 1) else s
  }

  // ---- tokens ----

  /** What gettoken returns at a position that is not white space. */
  function TokenAt(t: string, a: nat): char {
    if a >= |t| then NUL else if IsAppend(t, a) then '+' else if IsSymbol(t[a]) then t[a] else 'a'
  }

  /** The token from a to b. */
  ghost predicate Lexed(t: string, tok: char, w: Span, a: nat, b: nat) {
    && tok == TokenAt(t, a)
    && (if a >= |t| then b == a == |t|
        else if tok == '+' then Gap(t, a + 2, b)
        else if tok == 'a' then WordPart(t, w, a, b)
        else Symbol(t, tok, a, b))
  }

  lemma LexedSymbol(t: string, tok: char, w: Span, a: nat, b: nat, c: char, k: nat)
    requires Lexed(t, tok, w, a, b) && a < |t| && t[a] == c && c in {'|', '&', ';', '(', ')'}
    ensures Symbol(t, c, a, b) && (Symbol(t, c, a, k) ==> k == b)
  {
    if Symbol(t, c, a, k) {
      GapUnique(t, a + 1, b, k);
    }
  }

  // ---- redirections ----

  /** The open mode for a redirection operator. */
  function ModeOf(tok: char): nat {
    if tok == '<' then O_RDONLY else if tok == '>' then O_WRONLY + O_CREATE + O_TRUNC else O_WRONLY + O_CREATE
  }

  function FdOf(tok: char): nat {
    if tok == '<' then 0 else 1
  }

  lemma LexedRedir(t: string, tok: char, w: Span, a: nat, b: nat)
    requires Lexed(t, tok, w, a, b) && Next(t, a) in {'<', '>'}
    ensures RedirSymbol(t, ModeOf(tok), FdOf(tok), a, b) && tok in {'<', '>', '+'}
    ensures forall mode: nat, fd: nat, k: nat | RedirSymbol(t, mode, fd, a, k) ::
              mode == ModeOf(tok) && fd == FdOf(tok) && k == b
  {
  }

  lemma {:induction false} ItemsMore(t: string, words: bool, cmd0: Cmd, a: nat, cmd: Cmd, m: nat, f: Span, mode: nat,
                                     fd: nat, b: nat)
    requires Items(t, words, cmd0, a, cmd, m) && a <= m && RedirPart(t, f, mode, fd, m, b)
    ensures Items(t, words, cmd0, a, Redir(cmd, f, mode, fd), b)
  {
    RedirPartIsOneWord(t, f, mode, fd, m, b);
  }

  /** If items are to follow and the next one is a redirection, it is the one just read. */
  lemma NextIsRedir(t: string, words: bool, cmd: Cmd, a: nat, wc: Cmd, wm: nat, tok: char, v: Span, k: nat,
                    tok2: char, f: Span, b: nat)
    requires Items(t, words, cmd, a, wc, wm) && Next(t, a) in {'<', '>'} && a <= |t|
    requires a == wm ==> Next(t, wm) !in {'<', '>'}
    requires Lexed(t, tok, v, a, k) && Lexed(t, tok2, f, k, b)
    ensures tok2 == 'a' && WordPart(t, f, k, b) && Items(t, words, Redir(cmd, f, ModeOf(tok), FdOf(tok)), b, wc, wm)
  {
    var first := TakeFirst(t, words, cmd, a, wc, wm);
    FirstChar(t, words, cmd, a, wc, wm, first);
    LexedRedir(t, tok, v, a, k);
    var m: nat :| RedirSymbol(t, first.mode, first.fd, a, m) && WordPart(t, first.file, m, first.k);
    assert m == k && IsWordChar(t[k]);
    WordUnique(t, first.file, f, k, first.k, b);
  }

  // ---- words ----

  /** Every argv has room for its words and a null pointer. */
  predicate ArgsFit(cmd: Cmd) {
    match cmd
    case Exec(args) => |args| < MAXARGS
    case Redir(c, _, _, _) => ArgsFit(c)
    case Pipe(l, r) => ArgsFit(l) && ArgsFit(r)
    case List(l, r) => ArgsFit(l) && ArgsFit(r)
    case Back(c) => ArgsFit(c)
  }

  lemma {:induction false} SimpleArgsFit(cmd: Cmd)
    requires IsSimple(cmd)
    ensures ArgsFit(cmd) <==> |ArgsOf(cmd)| < MAXARGS
  {
    if cmd.Redir? { SimpleArgsFit(cmd.cmd); }
  }

  lemma {:induction false} ItemsSimple(t: string, words: bool, cmd0: Cmd, a: nat, cmd: Cmd, b: nat)
    requires Items(t, words, cmd0, a, cmd, b) && IsSimple(cmd0)
    ensures IsSimple(cmd)
    decreases b - a
  {
    if cmd.Redir? && !(cmd == cmd0 && a == b) {
      if m: nat :|
              && a <= m < b && RedirPart(t, cmd.file, cmd.mode, cmd.fd, m, b)
              && Items(t, words, cmd0, a, cmd.cmd, m) {
        ItemsSimple(t, words, cmd0, a, cmd.cmd, m);
      }
    }
  }

  /** More items never make the arguments fit better. */
  lemma {:induction false} ItemsKeepFit(t: string, words: bool, cmd0: Cmd, a: nat, cmd: Cmd, b: nat)
    requires Items(t, words, cmd0, a, cmd, b) && ArgsFit(cmd)
    ensures ArgsFit(cmd0)
    decreases b - a
  {
    if cmd == cmd0 && a == b {
    } else if m: nat :|
            && cmd.Redir? && a <= m < b && RedirPart(t, cmd.file, cmd.mode, cmd.fd, m, b)
            && Items(t, words, cmd0, a, cmd.cmd, m) {
      ItemsKeepFit(t, words, cmd0, a, cmd.cmd, m);
    } else {
      var m: nat :| a <= m < b && WordPart(t, LastArg(cmd), m, b) && Items(t, words, cmd0, a, ButLastArg(cmd), m);
      WithArgsFacts(cmd, ArgsOf(cmd)[..|ArgsOf(cmd)| - 1]);
      SimpleArgsFit(cmd);
      SimpleArgsFit(ButLastArg(cmd));
      ItemsKeepFit(t, words, cmd0, a, ButLastArg(cmd), m);
    }
  }

  lemma ItemsWord(t: string, cmd0: Cmd, a: nat, cmd: Cmd, m: nat, w: Span, b: nat)
    requires Items(t, true, cmd0, a, cmd, m) && a <= m && IsSimple(cmd) && WordPart(t, w, m, b)
    ensures m < b && Items(t, true, cmd0, a, WithWord(cmd, w), b)
  {
    WithWordFacts(cmd, w);
    WordPartIsOneWord(t, w, m, b);
  }

  /** If items are to follow and the next one is a word, it is the one just read. */
  lemma NextIsWord(t: string, cmd: Cmd, a: nat, wc: Cmd, wm: nat, tok: char, w: Span, b: nat)
    requires Items(t, true, cmd, a, wc, wm) && a != wm && Next(t, a) !in {'<', '>'} && Lexed(t, tok, w, a, b)
    ensures tok == 'a' && Items(t, true, WithWord(cmd, w), b, wc, wm)
  {
    var first := TakeFirst(t, true, cmd, a, wc, wm);
    FirstChar(t, true, cmd, a, wc, wm, first);
    WordUnique(t, first.w, w, a, first.k, b);
  }

  // ---- where each construct may end ----

  predicate EndsLine(t: string, b: nat) {
    Next(t, b) in {NUL, ')'}
  }

  predicate EndsJob(t: string, b: nat) {
    Next(t, b) in {NUL, ')', ';'}
  }

  predicate EndsPipeline(t: string, b: nat) {
    Next(t, b) in {NUL, ')', ';', '&'}
  }

  predicate EndsPart(t: string, b: nat) {
    Next(t, b) in {NUL, ')', ';', '&', '|'}
  }

  // ---- strings in the buffer ----

  /** What a pointer to position q means: the characters up to the next NUL. */
  function CString(b: seq<char>, q: nat): string
    decreases |b| - q
  {
    if q >= |b| || b[q] == NUL then [] else [b[q]] + CString(b, q + 1)
  }

  lemma {:induction false} CStringIs(b: seq<char>, q: nat, e: nat)
    requires q <= e < |b| && b[e] == NUL && forall i | q <= i < e :: b[i] != NUL
    ensures CString(b, q) == b[q..e]
    decreases e - q
  {
    if q < e {
      CStringIs(b, q + 1, e);
      assert b[q..e] == [b[q]] + b[q + 1..e];
    }
  }

  /** Where nulterminate writes. */
  function Ends(cmd: Cmd): set<nat> {
    match cmd
    case Exec(args) => set i | 0 <= i < |args| :: args[i].eq
    case Redir(c, file, _, _) => Ends(c) + {file.eq}
    case Pipe(l, r) => Ends(l) + Ends(r)
    case List(l, r) => Ends(l) + Ends(r)
    case Back(c) => Ends(c)
  }

  lemma {:induction false} EndsAreOfTokens(cmd: Cmd, k: nat)
    ensures k in Ends(cmd) <==> exists w :: w in Tokens(cmd) && w.eq == k
  {
    match cmd
    case Exec(args) =>
      if k in Ends(cmd) {
        var i :| 0 <= i < |args| && args[i].eq == k;
        assert args[i] in multiset(args);
      }
    case Redir(c, file, _, _) =>
      EndsAreOfTokens(c, k);
      assert file in Tokens(cmd);
    case Pipe(l, r) =>
      EndsAreOfTokens(l, k);
      EndsAreOfTokens(r, k);
    case List(l, r) =>
      EndsAreOfTokens(l, k);
      EndsAreOfTokens(r, k);
    case Back(c) =>
      EndsAreOfTokens(c, k);
  }

  /** The buffer with NULs written at the ends of the words. */
  ghost predicate Terminated(b: seq<char>, b': seq<char>, ends: set<nat>) {
    |b'| == |b| && forall k: nat | k < |b| :: b'[k] == if k in ends then NUL else b[k]
  }

  /** The words of a command are words of the line it stands for, all of them, each once. */
  lemma WholeLineTokens(t: string, a: nat, cmd: Cmd)
    requires a <= |t| && Blank(t, 0, a) && Line(t, cmd, a, |t|)
    ensures Tokens(cmd) == multiset(WordsIn(t, 0, |t|))
    ensures forall w | w in Tokens(cmd) :: IsWord(t, w)
  {
    BlankBoundary(t, 0, a);
    LineTokens(t, cmd, a, |t|);
    BlankHasNoWords(t, 0, a);
    SplitWords(t, 0, a, |t|);
    forall w | w in Tokens(cmd)
      ensures IsWord(t, w)
    {
      WordsInAre(t, 0, |t|, w);
    }
  }

  lemma NoEndInside(t: string, cmd: Cmd, w: Span, i: nat)
    requires (forall v | v in Tokens(cmd) :: IsWord(t, v)) && IsWord(t, w) && w.q <= i < w.eq
    ensures i !in Ends(cmd)
  {
    EndsAreOfTokens(cmd, i);
    forall v | v in Tokens(cmd)
      ensures v.eq != i
    {
      WordsApart(t, v, w);
    }
  }

  /** After nulterminate every argument and file name, read as a C string, is its word. */
  lemma WordsBecomeStrings(t: string, b: seq<char>, b': seq<char>, cmd: Cmd, w: Span)
    requires |t| < |b| && b[..|t|] == t && b[|t|] == NUL && NUL !in t
    requires (forall v | v in Tokens(cmd) :: IsWord(t, v)) && Terminated(b, b', Ends(cmd)) && w in Tokens(cmd)
    ensures w.q < w.eq <= |t| && CString(b', w.q) == t[w.q..w.eq]
  {
    hide IsWordChar, Tokens, Ends;
    EndsAreOfTokens(cmd, w.eq);
    forall i: nat | w.q <= i < w.eq
      ensures b'[i] == t[i] && t[i] != NUL
    {
      NoEndInside(t, cmd, w, i);
      assert b[i] == t[i];
    }
    CStringIs(b', w.q, w.eq);
    assert b'[w.q..w.eq] == t[w.q..w.eq];
  }

  class Parser {
    const buf: array<char>
    const es: nat
    var s: nat

    /** es is the end of the string in buf. */
    ghost predicate Valid()
      reads this, buf
    {
      es < buf.Length && buf[es] == NUL && NUL !in buf[..es] && s <= es && Boundary(buf[..es], s)
    }

    /** The line starts at the first character of the buffer and ends at its first NUL. */
    constructor (buf: array<char>)
      requires NUL in buf[..]
      ensures Valid() && s == 0 && this.buf == buf
    {
      var n := 0;
      while buf[n] != NUL
        invariant 0 <= n < buf.Length && NUL !in buf[..n] && NUL in buf[n..]
        decreases buf.Length - n
      {
        assert buf[n..] == [buf[n]] + buf[n + 1..];
        assert buf[..n + 1] == buf[..n] + [buf[n]];
        n := n + 1;
      }
      this.buf, es, s := buf, n, 0;
    }

    ghost function T(): string
      reads buf
      requires es <= buf.Length
    {
      buf[..es]
    }

    /** The loops that skip white space. */
    method SkipSpace()
      requires Valid()
      modifies this`s
      ensures Valid() && s == Skip(T(), old(s))
    {
      while s < es && IsSpace(buf[s])
        invariant old(s) <= s <= es && Skip(T(), old(s)) == Skip(T(), s) && Blank(T(), old(s), s)
      {
        s := s + 1;
      }
      BlankBoundary(T(), old(s), s);
    }

    /** peek: white space is skipped, and the next character is one of toks. */
    method Peek(toks: string) returns (r: bool)
      requires Valid() && NUL !in toks
      modifies this`s
      ensures Valid() && s == Skip(T(), old(s)) && (r <==> Next(T(), s) in toks)
    {
      SkipSpace();
      r := buf[s] in toks;
    }

    /** gettoken of a symbol that peek has seen. */
    method Eat(c: char, ghost k: nat)
      requires Valid() && AtToken(T(), s) && Next(T(), s) == c && c in {'|', '&', ';', '(', ')'}
      modifies this`s
      ensures Valid() && old(s) < s && AtToken(T(), s) && Skip(T(), s) == s
      ensures Symbol(T(), c, old(s), s) && (Symbol(T(), c, old(s), k) ==> k == s)
    {
      hide Skip, Next, Lexed, Symbol;
      AlreadyThere(T(), s);
      NextIsThere(T(), s);
      ghost var m := s;
      var tok, w := GetToken();
      LexedSymbol(T(), tok, w, m, s, c, k);
      AlreadyThere(T(), s);
    }

    /** gettoken: one token, with white space skipped before and after it. */
    method GetToken() returns (tok: char, w: Span)
      requires Valid()
      modifies this`s
      ensures Valid() && Lexed(T(), tok, w, Skip(T(), old(s)), s) && AtToken(T(), s)
      ensures Skip(T(), old(s)) <= s && (Skip(T(), old(s)) < es ==> Skip(T(), old(s)) < s)
    {
      hide Skip;
      SkipSpace();
      var q := s;
      tok := buf[s];
      if tok == NUL {
        w := Span(q, s);
        return;
      } else if IsSymbol(tok) {
        s := s + 1;
        if tok == '>' && buf[s] == '>' {
          tok := '+';
          s := s + 1;
        }
      } else {
        tok := 'a';
        while s < es && IsWordChar(buf[s])
          invariant q <= s <= es && forall i | q <= i < s :: IsWordChar(T()[i])
        {
          assert T()[s] == buf[s];
          s := s + 1;
        }
        assert IsWord(T(), Span(q, s));
      }
      w := Span(q, s);
      SkipSpace();
    }

    /** parseredirs: any number of redirections of cmd. */
    method ParseRedirs(cmd: Cmd, ghost words: bool, ghost wc: Cmd, ghost wm: nat) returns (r: Result)
      requires Valid()
      modifies this`s
      ensures Valid() && Skip(T(), old(s)) <= s && AtToken(T(), s)
      ensures r.Ok? ==> Items(T(), words, cmd, Skip(T(), old(s)), r.cmd, s) && Next(T(), s) !in {'<', '>'}
      ensures r.Ok? && ArgsFit(cmd) ==> ArgsFit(r.cmd)
      ensures Items(T(), words, cmd, Skip(T(), old(s)), wc, wm) && Next(T(), wm) !in {'<', '>'} ==>
                r.Ok? && Items(T(), words, r.cmd, s, wc, wm)
    {
      hide Items, RedirPart, Lexed, Skip, Next;
      var ret := cmd;
      ghost var a := Skip(T(), s);
      ghost var hope := Items(T(), words, cmd, a, wc, wm) && Next(T(), wm) !in {'<', '>'};
      NoItems(T(), words, cmd, a);
      var more := Peek("<>");
      while more
        invariant Valid() && a <= s && AtToken(T(), s) && Items(T(), words, cmd, a, ret, s)
        invariant (ArgsFit(cmd) ==> ArgsFit(ret)) && (hope ==> Items(T(), words, ret, s, wc, wm))
        invariant more <==> Next(T(), s) in {'<', '>'}
        decreases es - s
      {
        r := ParseRedir(cmd, a, ret, words, wc, wm, hope);
        if r == Panic {
          return;
        }
        ret := r.cmd;
        AlreadyThere(T(), s);
        more := Peek("<>");
      }
      r := Ok(ret);
    }

    /** One redirection, at its operator. */
    method ParseRedir(ghost cmd0: Cmd, ghost a: nat, cmd: Cmd, ghost words: bool, ghost wc: Cmd, ghost wm: nat,
                      ghost hope: bool)
      returns (r: Result)
      requires Valid() && a <= s && AtToken(T(), s) && Next(T(), s) in {'<', '>'} && Items(T(), words, cmd0, a, cmd, s)
      requires hope ==> Items(T(), words, cmd, s, wc, wm) && Next(T(), wm) !in {'<', '>'}
      modifies this`s
      ensures Valid() && old(s) < s && AtToken(T(), s)
      ensures r.Ok? ==> Items(T(), words, cmd0, a, r.cmd, s) && (ArgsFit(cmd) ==> ArgsFit(r.cmd))
      ensures hope ==> r.Ok? && Items(T(), words, r.cmd, s, wc, wm)
    {
      hide Items, RedirPart, Lexed, Skip, Next;
      ghost var m := s;
      AlreadyThere(T(), m);
      assert m < es by { NextIsThere(T(), m); }
      var tok, w := GetToken();
      ghost var k := s;
      AlreadyThere(T(), k);
      LexedRedir(T(), tok, w, m, k);
      var tok2, f := GetToken();
      if hope {
        NextIsRedir(T(), words, cmd, m, wc, wm, tok, w, k, tok2, f, s);
      }
      if tok2 != 'a' {
        return Panic;
      }
      FileRead(T(), tok, w, m, k, tok2, f, s);
      ItemsMore(T(), words, cmd0, a, cmd, m, f, ModeOf(tok), FdOf(tok), s);
      r := Ok(Redir(cmd, f, ModeOf(tok), FdOf(tok)));
    }

    /** parseexec: at most nine words, so that argv keeps room for the null pointer at its end. */
    method ParseExec(ghost wc: Cmd, ghost wm: nat) returns (r: Result)
      requires Valid()
      modifies this`s
      ensures Valid() && Skip(T(), old(s)) <= s && AtToken(T(), s)
      ensures r.Ok? ==> Part(T(), r.cmd, Skip(T(), old(s)), s) && ArgsFit(r.cmd)
      ensures Part(T(), wc, Skip(T(), old(s)), wm) && EndsPart(T(), wm) && ArgsFit(wc) ==> r == Ok(wc) && s == wm
      decreases es - s, 2
    {
      hide Items, Block, Skip, Next, Lexed, ArgsFit;
      ghost var a := Skip(T(), s);
      ghost var hope := Part(T(), wc, a, wm) && EndsPart(T(), wm) && ArgsFit(wc);
      var more := Peek("(");
      if more {
        if hope {
          MustBeBlock(T(), wc, a, wm);
        }
        r := ParseBlock(wc, wm);
        return;
      }
      if hope {
        MustBeItems(T(), wc, a, wm);
      }
      AlreadyThere(T(), s);
      EndsPartIsNoItem(T(), wm);
      NoItems(T(), true, Exec([]), a);
      r := ParseRedirs(Exec([]), true, wc, wm);
      if r == Panic {
        return;
      }
      ItemsSimple(T(), true, Exec([]), a, r.cmd, s);
      assert ArgsFit(Exec([])) by { SimpleArgsFit(Exec([])); }
      r := ParseWords(r.cmd, a, wc, wm, hope);
    }

    /** The loop of parseexec. */
    method ParseWords(cmd: Cmd, ghost a: nat, ghost wc: Cmd, ghost wm: nat, ghost hope: bool) returns (r: Result)
      requires Valid() && a <= s && AtToken(T(), s) && Next(T(), s) !in {'<', '>'}
      requires Items(T(), true, Exec([]), a, cmd, s) && ArgsFit(cmd) && IsSimple(cmd)
      requires hope ==> Items(T(), true, cmd, s, wc, wm) && EndsPart(T(), wm) && ArgsFit(wc)
      modifies this`s
      ensures Valid() && a <= s && AtToken(T(), s)
      ensures r.Ok? ==> Items(T(), true, Exec([]), a, r.cmd, s) && ArgsFit(r.cmd)
      ensures hope ==> r == Ok(wc) && s == wm
    {
      hide Items, Skip, Next, Lexed, ArgsFit, IsSimple, EndsPart, Boundary;
      r := Ok(cmd);
      AlreadyThere(T(), s);
      var more := Peek("|)&;");
      while !more
        invariant Valid() && a <= s && AtToken(T(), s) && r.Ok? && Items(T(), true, Exec([]), a, r.cmd, s)
        invariant ArgsFit(r.cmd) && IsSimple(r.cmd) && Next(T(), s) !in {'<', '>'}
        invariant hope ==> Items(T(), true, r.cmd, s, wc, wm)
        invariant more <==> Next(T(), s) in "|)&;"
        decreases es - s
      {
        ghost var m := s;
        AlreadyThere(T(), m);
        var tok, w := GetToken();
        if tok == NUL {
          NothingLeft(T(), tok, w, m, s);
          break;
        }
        if hope {
          WordExpected(T(), r.cmd, m, wc, wm, tok, w, s);
        }
        if tok != 'a' {
          return Panic;
        }
        IsAWord(T(), tok, w, m, s);
        r := AddWord(r.cmd, w, a, m, wc, wm, hope);
        if r == Panic {
          return;
        }
        AlreadyThere(T(), s);
        more := Peek("|)&;");
      }
      if hope {
        ItemsOver(T(), r.cmd, s, wc, wm);
      }
    }

    /** The word just read becomes the next argument, and redirections after it are read. */
    method AddWord(cmd: Cmd, w: Span, ghost a: nat, ghost m: nat, ghost wc: Cmd, ghost wm: nat, ghost hope: bool)
      returns (r: Result)
      requires Valid() && a <= m <= s && AtToken(T(), s) && WordPart(T(), w, m, s)
      requires Items(T(), true, Exec([]), a, cmd, m) && IsSimple(cmd) && ArgsFit(cmd)
      requires hope ==> Items(T(), true, WithWord(cmd, w), s, wc, wm) && EndsPart(T(), wm) && ArgsFit(wc)
      modifies this`s
      ensures Valid() && m < old(s) <= s && AtToken(T(), s)
      ensures r.Ok? ==> Items(T(), true, Exec([]), a, r.cmd, s) && IsSimple(r.cmd) && ArgsFit(r.cmd)
      ensures r.Ok? ==> Next(T(), s) !in {'<', '>'}
      ensures hope ==> r.Ok? && Items(T(), true, r.cmd, s, wc, wm)
    {
      hide Items, WordPart, Skip, Next, IsSimple, ArgsFit, WithWord;
      ItemsWord(T(), Exec([]), a, cmd, m, w, s);
      WithWordFacts(cmd, w);
      var ret := WithWord(cmd, w);
      SimpleArgsFit(ret);
      if hope {
        ItemsKeepFit(T(), true, ret, s, wc, wm);
      }
      if |ArgsOf(ret)| >= MAXARGS {
        return Panic;
      }
      ghost var k := s;
      AlreadyThere(T(), k);
      EndsPartIsNoItem(T(), wm);
      r := ParseRedirs(ret, true, wc, wm);
      if r.Ok? {
        ItemsThenItems(T(), true, Exec([]), a, ret, k, r.cmd, s);
        ItemsSimple(T(), true, ret, k, r.cmd, s);
      }
    }

    /** parseblock, called at an opening parenthesis. */
    method ParseBlock(ghost wc: Cmd, ghost wm: nat) returns (r: Result)
      requires Valid() && AtToken(T(), s) && Next(T(), s) == '('
      modifies this`s
      ensures Valid() && old(s) <= s && AtToken(T(), s)
      ensures r.Ok? ==> Part(T(), r.cmd, old(s), s) && ArgsFit(r.cmd)
      ensures Block(T(), wc, old(s), wm) && EndsPart(T(), wm) && ArgsFit(wc) ==> r == Ok(wc) && s == wm
      decreases es - s, 1
    {
      hide Items, Block, Around, Line, Skip, Next, Lexed, Symbol, ArgsFit, Boundary, EndsPart, EndsLine, Part;
      ghost var a, hope := s, Block(T(), wc, s, wm) && EndsPart(T(), wm) && ArgsFit(wc);
      ghost var c, i, j, k := wc, 0, 0, 0;
      if hope {
        c, i, j, k := OpenBlock(T(), wc, a, wm);
      }
      AlreadyThere(T(), s);
      var more := Peek("(");
      if !more {
        return Panic;
      }
      NextIsThere(T(), a);
      var tok, w := GetToken();
      ghost var i' := s;
      LexedSymbol(T(), tok, w, a, s, '(', i);
      AlreadyThere(T(), s);
      r := ParseLine(c, j);
      if r == Panic {
        return;
      }
      r := EndBlock(r.cmd, a, i', wc, wm, k, hope);
    }

    /** The end of parseblock: the closing parenthesis and redirections of the block. */
    method EndBlock(cmd: Cmd, ghost a: nat, ghost i: nat, ghost wc: Cmd, ghost wm: nat, ghost k: nat, ghost hope: bool)
      returns (r: Result)
      requires Valid() && AtToken(T(), s) && a < i <= s && Symbol(T(), '(', a, i) && Line(T(), cmd, i, s)
      requires ArgsFit(cmd)
      requires hope ==>
                && Symbol(T(), ')', s, k) && Next(T(), s) == ')' && Items(T(), false, cmd, k, wc, wm)
                && EndsPart(T(), wm)
      modifies this`s
      ensures Valid() && old(s) <= s && AtToken(T(), s)
      ensures r.Ok? ==> Part(T(), r.cmd, a, s) && ArgsFit(r.cmd)
      ensures hope ==> r == Ok(wc) && s == wm
    {
      hide Items, Around, Line, Skip, Next, Lexed, Symbol, ArgsFit, Boundary, EndsPart, Part;
      ghost var j := s;
      AlreadyThere(T(), s);
      var more := Peek(")");
      if !more {
        return Panic;
      }
      NextIsThere(T(), j);
      var tok, w := GetToken();
      ghost var k' := s;
      LexedSymbol(T(), tok, w, j, s, ')', k);
      AlreadyThere(T(), s);
      EndsPartIsNoItem(T(), wm);
      r := ParseRedirs(cmd, false, wc, wm);
      if r.Ok? {
        CloseBlock(T(), cmd, r.cmd, a, i, j, k', s);
      }
      if hope {
        RedirsOver(T(), r.cmd, s, wc, wm);
      }
    }

    /** parsepipe. */
    method ParsePipe(ghost wc: Cmd, ghost wm: nat) returns (r: Result)
      requires Valid()
      modifies this`s
      ensures Valid() && Skip(T(), old(s)) <= s && AtToken(T(), s)
      ensures r.Ok? ==> Pipeline(T(), r.cmd, Skip(T(), old(s)), s) && ArgsFit(r.cmd)
      ensures Pipeline(T(), wc, Skip(T(), old(s)), wm) && EndsPipeline(T(), wm) && ArgsFit(wc) ==>
                r == Ok(wc) && s == wm
      decreases es - s, 3
    {
      hide Part, Skip, Next, Lexed, Symbol;
      ghost var a := Skip(T(), s);
      ghost var hope := Pipeline(T(), wc, a, wm) && EndsPipeline(T(), wm) && ArgsFit(wc);
      ghost var more', c, m, k := false, wc, wm, wm;
      if hope {
        more', c, m, k := FirstPart(T(), wc, a, wm);
      }
      r := ParseExec(c, m);
      if r == Panic {
        return;
      }
      ghost var m' := s;
      AlreadyThere(T(), s);
      var more := Peek("|");
      if more {
        var left := r.cmd;
        Eat('|', k);
        ghost var k' := s;
        r := ParsePipe(if wc.Pipe? then wc.right else wc, wm);
        if r.Ok? {
          r := Ok(Pipe(left, r.cmd));
          assert a <= m' < k' <= s && Symbol(T(), '|', m', k') && Part(T(), left, a, m');
        }
      }
    }

    /** parseline. */
    method ParseLine(ghost wc: Cmd, ghost wm: nat) returns (r: Result)
      requires Valid()
      modifies this`s
      ensures Valid() && Skip(T(), old(s)) <= s && AtToken(T(), s)
      ensures r.Ok? ==> Line(T(), r.cmd, Skip(T(), old(s)), s) && ArgsFit(r.cmd)
      ensures Line(T(), wc, Skip(T(), old(s)), wm) && EndsLine(T(), wm) && ArgsFit(wc) ==> r == Ok(wc) && s == wm
      decreases es - s, 5
    {
      hide Pipeline, Job, Skip, Next, Lexed, Symbol, Ampersands;
      ghost var a := Skip(T(), s);
      ghost var hope := Line(T(), wc, a, wm) && EndsLine(T(), wm) && ArgsFit(wc);
      ghost var listed, job, jm, k := false, wc, wm, wm;
      if hope {
        listed, job, jm, k := FirstJob(T(), wc, a, wm);
      }
      r := ParseJob(job, jm);
      if r == Panic {
        return;
      }
      ghost var m' := s;
      AlreadyThere(T(), s);
      var more := Peek(";");
      if more {
        var left := r.cmd;
        Eat(';', k);
        ghost var k' := s;
        r := ParseLine(if wc.List? then wc.right else wc, wm);
        if r.Ok? {
          r := Ok(List(left, r.cmd));
          assert a <= m' < k' <= s && Symbol(T(), ';', m', k') && Job(T(), left, a, m');
        }
      }
    }

    /** The first half of parseline: a pipeline and the ampersands after it. */
    method ParseJob(ghost wc: Cmd, ghost wm: nat) returns (r: Result)
      requires Valid()
      modifies this`s
      ensures Valid() && Skip(T(), old(s)) <= s && AtToken(T(), s)
      ensures r.Ok? ==> Job(T(), r.cmd, Skip(T(), old(s)), s) && ArgsFit(r.cmd)
      ensures Job(T(), wc, Skip(T(), old(s)), wm) && EndsJob(T(), wm) && ArgsFit(wc) ==> r == Ok(wc) && s == wm
      decreases es - s, 4
    {
      hide Pipeline, Job, Skip, Next, Lexed, Symbol, Ampersands;
      ghost var a := Skip(T(), s);
      ghost var hope := Job(T(), wc, a, wm) && EndsJob(T(), wm) && ArgsFit(wc);
      ghost var p, pm := wc, wm;
      if hope {
        p, pm := FirstPipeline(T(), wc, a, wm);
      }
      r := ParsePipe(p, pm);
      if r == Panic {
        return;
      }
      ghost var core, m := r.cmd, s;
      var cmd := r.cmd;
      NoAmpersands(T(), core, m);
      AlreadyThere(T(), s);
      var more := Peek("&");
      while more
        invariant Valid() && m <= s && AtToken(T(), s) && Ampersands(T(), core, m, cmd, s) && ArgsFit(cmd)
        invariant hope ==> Ampersands(T(), cmd, s, wc, wm)
        invariant more <==> Next(T(), s) in "&"
        decreases es - s
      {
        ghost var x := s;
        Eat('&', 0);
        if hope {
          NextAmpersand(T(), cmd, x, wc, wm, s);
        }
        MoreAmpersands(T(), core, m, cmd, x, s);
        cmd := Back(cmd);
        AlreadyThere(T(), s);
        more := Peek("&");
      }
      if hope {
        AmpersandsOver(T(), cmd, s, wc, wm);
      }
      JobMade(T(), core, a, m, cmd, s);
      r := Ok(cmd);
    }

    /** nulterminate. */
    method NulTerminate(cmd: Cmd)
      requires forall k | k in Ends(cmd) :: k < buf.Length
      modifies buf
      ensures Terminated(old(buf[..]), buf[..], Ends(cmd))
      decreases cmd
    {
      match cmd
      case Exec(args) =>
        var i := 0;
        while i < |args|
          invariant 0 <= i <= |args|
          invariant Terminated(old(buf[..]), buf[..], set j | 0 <= j < i :: args[j].eq)
        {
          assert args[i].eq in Ends(cmd);
          buf[args[i].eq] := NUL;
          i := i + 1;
        }
      case Redir(c, file, _, _) =>
        assert Ends(c) <= Ends(cmd) && file.eq in Ends(cmd);
        NulTerminate(c);
        buf[file.eq] := NUL;
      case Pipe(l, r) =>
        assert Ends(l) <= Ends(cmd) && Ends(r) <= Ends(cmd);
        NulTerminate(l);
        NulTerminate(r);
      case List(l, r) =>
        assert Ends(l) <= Ends(cmd) && Ends(r) <= Ends(cmd);
        NulTerminate(l);
        NulTerminate(r);
      case Back(c) =>
        assert Ends(c) <= Ends(cmd);
        NulTerminate(c);
    }

    /** parsecmd: the one command that the whole line stands for, whose words have become strings; or a
        panic, when there is none with arguments that fit, and the line is as it was. */
    method ParseCmd(ghost wc: Cmd) returns (r: Result)
      requires Valid() && s == 0
      modifies this`s, buf
      ensures r == Panic ==> buf[..] == old(buf[..])
      ensures r.Ok? ==> Line(old(T()), r.cmd, Skip(old(T()), 0), es) && ArgsFit(r.cmd)
      ensures Line(old(T()), wc, Skip(old(T()), 0), es) && ArgsFit(wc) ==> r == Ok(wc)
      ensures r.Ok? ==> Tokens(r.cmd) == multiset(WordsIn(old(T()), 0, es))
      ensures r.Ok? ==> forall w | w in Tokens(r.cmd) ::
                w.q < w.eq <= es && CString(buf[..], w.q) == old(T())[w.q..w.eq]
    {
      hide Line, CString, Ends, Tokens, IsWord, ArgsFit, Skip;
      ghost var t, b := T(), buf[..];
      r := ParseLine(wc, es);
      if r == Panic {
        return;
      }
      AlreadyThere(T(), s);
      var more := Peek("");
      if s != es {
        return Panic;
      }
      WholeLineTokens(t, Skip(t, 0), r.cmd);
      forall k | k in Ends(r.cmd)
        ensures k < buf.Length
      {
        EndIsInside(t, r.cmd, k);
      }
      NulTerminate(r.cmd);
      forall w | w in Tokens(r.cmd)
        ensures w.q < w.eq <= es && CString(buf[..], w.q) == t[w.q..w.eq]
      {
        WordsBecomeStrings(t, b, buf[..], r.cmd, w);
      }
    }
  }

  lemma EndIsInside(t: string, cmd: Cmd, k: nat)
    requires (forall w | w in Tokens(cmd) :: IsWord(t, w)) && k in Ends(cmd)
    ensures k <= |t|
  {
    EndsAreOfTokens(cmd, k);
  }

  // ---- what the grammar says at each point of the parser ----

  lemma MustBeBlock(t: string, wc: Cmd, a: nat, wm: nat)
    requires Part(t, wc, a, wm) && EndsPart(t, wm) && a <= |t| && Next(t, a) == '('
    ensures Block(t, wc, a, wm)
  {
    if Items(t, true, Exec([]), a, wc, wm) {
      NoItem(t, true, Exec([]), a, wc, wm);
    }
  }

  lemma MustBeItems(t: string, wc: Cmd, a: nat, wm: nat)
    requires Part(t, wc, a, wm) && Next(t, a) != '('
    ensures Items(t, true, Exec([]), a, wc, wm)
  {
  }

  lemma EndsPartIsNoItem(t: string, b: nat)
    ensures EndsPart(t, b) ==> Next(t, b) !in {'<', '>'}
  {
  }

  lemma NothingLeft(t: string, tok: char, w: Span, a: nat, b: nat)
    requires Lexed(t, tok, w, a, b) && tok == NUL
    ensures a == b == |t| && Next(t, b) == NUL
  {
  }

  lemma IsAWord(t: string, tok: char, w: Span, a: nat, b: nat)
    requires Lexed(t, tok, w, a, b) && tok == 'a'
    ensures WordPart(t, w, a, b)
  {
  }

  /** In the loop of parseexec the token must be a word. */
  lemma WordExpected(t: string, cmd: Cmd, a: nat, wc: Cmd, wm: nat, tok: char, w: Span, b: nat)
    requires Items(t, true, cmd, a, wc, wm) && EndsPart(t, wm) && Lexed(t, tok, w, a, b) && tok != NUL
    requires Next(t, a) !in {'<', '>'} && Next(t, a) !in "|)&;" && NUL !in t
    ensures tok == 'a' && Items(t, true, WithWord(cmd, w), b, wc, wm)
  {
    NextIsWord(t, cmd, a, wc, wm, tok, w, b);
  }

  lemma ItemsOver(t: string, cmd: Cmd, a: nat, wc: Cmd, wm: nat)
    requires Items(t, true, cmd, a, wc, wm) && a <= |t| && (Next(t, a) in "|)&;" || a == |t|)
    ensures cmd == wc && a == wm
  {
    NoItem(t, true, cmd, a, wc, wm);
  }

  lemma RedirsOver(t: string, cmd: Cmd, a: nat, wc: Cmd, wm: nat)
    requires Items(t, false, cmd, a, wc, wm) && a <= |t| && Next(t, a) !in {'<', '>'}
    ensures cmd == wc && a == wm
  {
    NoItem(t, false, cmd, a, wc, wm);
  }

  lemma {:induction false} ItemsThenItems(t: string, words: bool, c0: Cmd, a: nat, c1: Cmd, m: nat, c2: Cmd, b: nat)
    requires Items(t, words, c0, a, c1, m) && a <= m && Items(t, words, c1, m, c2, b)
    ensures Items(t, words, c0, a, c2, b) && m <= b
    decreases b - m
  {
    if c2 == c1 && m == b {
    } else if x: nat :|
            && c2.Redir? && m <= x < b && RedirPart(t, c2.file, c2.mode, c2.fd, x, b)
            && Items(t, words, c1, m, c2.cmd, x) {
      ItemsThenItems(t, words, c0, a, c1, m, c2.cmd, x);
    } else {
      var x: nat :| m <= x < b && WordPart(t, LastArg(c2), x, b) && Items(t, words, c1, m, ButLastArg(c2), x);
      ItemsThenItems(t, words, c0, a, c1, m, ButLastArg(c2), x);
    }
  }

  lemma OpenBlock(t: string, wc: Cmd, a: nat, wm: nat) returns (c: Cmd, i: nat, j: nat, k: nat)
    requires Block(t, wc, a, wm) && ArgsFit(wc)
    ensures Symbol(t, '(', a, i) && Line(t, c, i, j) && Symbol(t, ')', j, k) && Items(t, false, c, k, wc, wm)
    ensures ArgsFit(c) && EndsLine(t, j) && Next(t, j) == ')'
  {
    c, i, j, k :| a < i <= j < k <= wm && Around(t, c, wc, a, i, j, k, wm) && Line(t, c, i, j);
    ItemsKeepFit(t, false, c, k, wc, wm);
  }

  lemma CloseBlock(t: string, c: Cmd, cmd: Cmd, a: nat, i: nat, j: nat, k: nat, b: nat)
    requires a < i <= j < k <= b && Symbol(t, '(', a, i) && Line(t, c, i, j) && Symbol(t, ')', j, k)
    requires Items(t, false, c, k, cmd, b)
    ensures Part(t, cmd, a, b)
  {
    assert Around(t, c, cmd, a, i, j, k, b);
  }

  /** The first part of a pipeline, and whether there are more. */
  lemma FirstPart(t: string, wc: Cmd, a: nat, wm: nat) returns (more: bool, c: Cmd, m: nat, k: nat)
    requires Pipeline(t, wc, a, wm) && EndsPipeline(t, wm) && ArgsFit(wc)
    ensures Part(t, c, a, m) && EndsPart(t, m) && ArgsFit(c)
    ensures if more then wc.Pipe? && c == wc.left && Symbol(t, '|', m, k) && Pipeline(t, wc.right, k, wm)
                         && ArgsFit(wc.right) && Next(t, m) == '|'
            else c == wc && m == wm && Next(t, m) != '|'
  {
    more, c, m, k := false, wc, wm, wm;
    if !Part(t, wc, a, wm) {
      var x: nat, y: nat :| a <= x < y <= wm && Symbol(t, '|', x, y) && Part(t, wc.left, a, x)
        && Pipeline(t, wc.right, y, wm);
      more, c, m, k := true, wc.left, x, y;
    }
  }

  lemma FirstJob(t: string, wc: Cmd, a: nat, wm: nat) returns (more: bool, c: Cmd, m: nat, k: nat)
    requires Line(t, wc, a, wm) && EndsLine(t, wm) && ArgsFit(wc)
    ensures Job(t, c, a, m) && EndsJob(t, m) && ArgsFit(c)
    ensures if more then wc.List? && c == wc.left && Symbol(t, ';', m, k) && Line(t, wc.right, k, wm)
                         && ArgsFit(wc.right) && Next(t, m) == ';'
            else c == wc && m == wm && Next(t, m) != ';'
  {
    more, c, m, k := false, wc, wm, wm;
    if !Job(t, wc, a, wm) {
      var x: nat, y: nat :| a <= x < y <= wm && Symbol(t, ';', x, y) && Job(t, wc.left, a, x)
        && Line(t, wc.right, y, wm);
      more, c, m, k := true, wc.left, x, y;
    }
  }

  lemma FirstPipeline(t: string, wc: Cmd, a: nat, wm: nat) returns (p: Cmd, m: nat)
    requires Job(t, wc, a, wm) && EndsJob(t, wm) && ArgsFit(wc)
    ensures Pipeline(t, p, a, m) && EndsPipeline(t, m) && ArgsFit(p) && Ampersands(t, p, m, wc, wm)
  {
    p, m :| a <= m <= wm && Ampersands(t, p, m, wc, wm) && Pipeline(t, p, a, m);
    var k := FirstAmpersand(t, p, m, wc, wm);
  }

  /** Ampersands can be taken off from the left. */
  lemma {:induction false} FirstAmpersand(t: string, c0: Cmd, a: nat, c: Cmd, b: nat) returns (k: nat)
    requires Ampersands(t, c0, a, c, b)
    ensures ArgsFit(c) ==> ArgsFit(c0)
    ensures a != b ==> Symbol(t, '&', a, k) && Ampersands(t, Back(c0), k, c, b) && a < k <= b
    decreases c
  {
    k := b;
    if !(c == c0 && a == b) {
      var m: nat :| a <= m < b && Ampersands(t, c0, a, c.cmd, m) && Symbol(t, '&', m, b);
      k := FirstAmpersand(t, c0, a, c.cmd, m);
      if a == m {
        SameCmd(t, c0, a, c.cmd);
        k := b;
      }
    }
  }

  lemma SameCmd(t: string, c0: Cmd, a: nat, c: Cmd)
    requires Ampersands(t, c0, a, c, a)
    ensures c == c0
  {
  }

  lemma NoAmpersands(t: string, c: Cmd, a: nat)
    ensures Ampersands(t, c, a, c, a)
  {
  }

  lemma MoreAmpersands(t: string, c0: Cmd, a: nat, c: Cmd, m: nat, b: nat)
    requires Ampersands(t, c0, a, c, m) && a <= m < b && Symbol(t, '&', m, b)
    ensures Ampersands(t, c0, a, Back(c), b)
  {
  }

  lemma NextAmpersand(t: string, c: Cmd, a: nat, wc: Cmd, wm: nat, b: nat)
    requires Ampersands(t, c, a, wc, wm) && EndsJob(t, wm) && Symbol(t, '&', a, b)
    ensures Ampersands(t, Back(c), b, wc, wm)
  {
    var k := FirstAmpersand(t, c, a, wc, wm);
    GapUnique(t, a + 1, b, k);
  }

  lemma AmpersandsOver(t: string, c: Cmd, a: nat, wc: Cmd, wm: nat)
    requires Ampersands(t, c, a, wc, wm) && Next(t, a) != '&'
    ensures c == wc && a == wm
  {
    var k := FirstAmpersand(t, c, a, wc, wm);
  }

  lemma JobMade(t: string, p: Cmd, a: nat, m: nat, c: Cmd, b: nat)
    requires Pipeline(t, p, a, m) && a <= m <= b && Ampersands(t, p, m, c, b)
    ensures Job(t, c, a, b)
  {
  }

  lemma NextIsThere(t: string, s: nat)
    requires s <= |t| && Next(t, s) != NUL
    ensures s < |t| && t[s] == Next(t, s)
  {
  }

  lemma BlankBoundary(t: string, a: nat, b: nat)
    requires Blank(t, a, b) && Boundary(t, a)
    ensures Boundary(t, b)
  {
  }

  lemma NoItems(t: string, words: bool, cmd: Cmd, a: nat)
    ensures Items(t, words, cmd, a, cmd, a)
  {
  }

  lemma AlreadyThere(t: string, s: nat)
    requires AtToken(t, s)
    ensures Skip(t, s) == s
  {
  }

  lemma FileRead(t: string, tok: char, w: Span, m: nat, k: nat, tok2: char, f: Span, b: nat)
    requires Lexed(t, tok, w, m, k) && Next(t, m) in {'<', '>'} && Lexed(t, tok2, f, k, b) && tok2 == 'a'
    ensures m < b && RedirPart(t, f, ModeOf(tok), FdOf(tok), m, b)
  {
    LexedRedir(t, tok, w, m, k);
    assert RedirPart(t, f, ModeOf(tok), FdOf(tok), m, b);
    RedirPartIsOneWord(t, f, ModeOf(tok), FdOf(tok), m, b);
  }
}
