/**
 The command language of the shell (user/sh.c), stated without reference to the
 parser: which stretches of a line are words and operators, and which commands a
 stretch of a line stands for. Positions a to b delimit a stretch t[a..b].
 */
module ShellGrammar {
  const O_RDONLY: nat := 0x000
  const O_WRONLY: nat := 0x001
  const O_CREATE: nat := 0x200
  const O_TRUNC: nat := 0x400

  /** A word of the line: where it starts and where it ends. */
  datatype Span = Span(q: nat, eq: nat)

  datatype Cmd =
    | Exec(args: seq<Span>)
    | Redir(cmd: Cmd, file: Span, mode: nat, fd: nat)
    | Pipe(left: Cmd, right: Cmd)
    | List(left: Cmd, right: Cmd)
    | Back(cmd: Cmd)

  predicate IsSpace(c: char) {
    c in {' ', '\t', '\r', '\n', 11 as char}
  }

  predicate IsSymbol(c: char) {
    c in {'<', '|', '>', '&', ';', '(', ')'}
  }

  predicate IsWordChar(c: char) {
    !IsSpace(c) && !IsSymbol(c)
  }

  // ---- the lexical level ----

  ghost predicate Blank(t: string, a: nat, b: nat) {
    a <= b <= |t| && forall i | a <= i < b :: IsSpace(t[i])
  }

  /** Not before white space. */
  predicate AtToken(t: string, b: nat) {
    b <= |t| && (b < |t| ==> !IsSpace(t[b]))
  }

  /** All the white space from a on. */
  ghost predicate Gap(t: string, a: nat, b: nat) {
    Blank(t, a, b) && AtToken(t, b)
  }

  /** A maximal run of word characters. */
  ghost predicate IsWord(t: string, w: Span) {
    && w.q < w.eq <= |t| && (forall i | w.q <= i < w.eq :: IsWordChar(t[i]))
    && (w.eq < |t| ==> !IsWordChar(t[w.eq])) && (w.q > 0 ==> !IsWordChar(t[w.q - 1]))
  }

  /** A word and the white space after it. */
  ghost predicate WordPart(t: string, w: Span, a: nat, b: nat) {
    w.q == a && IsWord(t, w) && Gap(t, w.eq, b)
  }

  /** The symbol c and the white space after it. */
  ghost predicate Symbol(t: string, c: char, a: nat, b: nat) {
    a < |t| && t[a] == c && Gap(t, a + 1, b)
  }

  predicate IsAppend(t: string, a: nat) {
    a + 1 < |t| && t[a] == '>' && t[a + 1] == '>'
  }

  // ---- commands ----

  /** A redirection operator: its mode and file descriptor. */
  ghost predicate RedirSymbol(t: string, mode: nat, fd: nat, a: nat, b: nat) {
    || (Symbol(t, '<', a, b) && mode == O_RDONLY && fd == 0)
    || (Symbol(t, '>', a, b) && !IsAppend(t, a) && mode == O_WRONLY + O_CREATE + O_TRUNC && fd == 1)
    || (IsAppend(t, a) && Gap(t, a + 2, b) && mode == O_WRONLY + O_CREATE && fd == 1)
  }

  ghost predicate RedirPart(t: string, file: Span, mode: nat, fd: nat, a: nat, b: nat) {
    exists m: nat :: RedirSymbol(t, mode, fd, a, m) && WordPart(t, file, m, b)
  }

  /** The words of a simple command under its redirections. */
  function ArgsOf(cmd: Cmd): seq<Span> {
    match cmd
    case Exec(args) => args
    case Redir(c, _, _, _) => ArgsOf(c)
    case _ => []
  }

  function WithArgs(cmd: Cmd, args: seq<Span>): Cmd {
    match cmd
    case Exec(_) => Exec(args)
    case Redir(c, file, mode, fd) => Redir(WithArgs(c, args), file, mode, fd)
    case _ => cmd
  }

  predicate IsSimple(cmd: Cmd) {
    match cmd
    case Exec(_) => true
    case Redir(c, _, _, _) => IsSimple(c)
    case _ => false
  }

  function LastArg(cmd: Cmd): Span
    requires ArgsOf(cmd) != []
  {
    ArgsOf(cmd)[|ArgsOf(cmd)| - 1]
  }

  function ButLastArg(cmd: Cmd): Cmd
    requires ArgsOf(cmd) != []
  {
    WithArgs(cmd, ArgsOf(cmd)[..|ArgsOf(cmd)| - 1])
  }

  /** From a to b there are redirections and, if `words`, words; with them cmd0 becomes cmd. */
  ghost predicate Items(t: string, words: bool, cmd0: Cmd, a: nat, cmd: Cmd, b: nat)
    decreases b - a
  {
    || (cmd == cmd0 && a == b)
    || (cmd.Redir? && exists m: nat ::
          a <= m < b && RedirPart(t, cmd.file, cmd.mode, cmd.fd, m, b) && Items(t, words, cmd0, a, cmd.cmd, m))
    || (words && IsSimple(cmd) && ArgsOf(cmd) != [] && exists m: nat ::
          a <= m < b && WordPart(t, LastArg(cmd), m, b) && Items(t, words, cmd0, a, ButLastArg(cmd), m))
  }

  /** A line in parentheses, with redirections. */
  ghost predicate Block(t: string, cmd: Cmd, a: nat, b: nat)
    decreases b - a, 0
  {
    exists c: Cmd, i: nat, j: nat, k: nat :: a < i <= j < k <= b && Around(t, c, cmd, a, i, j, k, b) && Line(t, c, i, j)
  }

  ghost predicate Around(t: string, c: Cmd, cmd: Cmd, a: nat, i: nat, j: nat, k: nat, b: nat) {
    Symbol(t, '(', a, i) && Symbol(t, ')', j, k) && Items(t, false, c, k, cmd, b)
  }

  /** One part of a pipeline: words and redirections in any order, or a block. */
  ghost predicate Part(t: string, cmd: Cmd, a: nat, b: nat)
    decreases b - a, 1
  {
    a <= b && (Items(t, true, Exec([]), a, cmd, b) || Block(t, cmd, a, b))
  }

  /** Parts separated by bars, grouped to the right. */
  ghost predicate Pipeline(t: string, cmd: Cmd, a: nat, b: nat)
    decreases b - a, 2
  {
    || Part(t, cmd, a, b)
    || (cmd.Pipe? && exists m: nat, k: nat ::
          a <= m < k <= b && Symbol(t, '|', m, k) && Part(t, cmd.left, a, m) && Pipeline(t, cmd.right, k, b))
  }

  /** Ampersands from a to b; with them cmd0 becomes cmd. */
  ghost predicate Ampersands(t: string, cmd0: Cmd, a: nat, cmd: Cmd, b: nat)
    decreases cmd
  {
    || (cmd == cmd0 && a == b)
    || (cmd.Back? && exists m: nat :: a <= m < b && Ampersands(t, cmd0, a, cmd.cmd, m) && Symbol(t, '&', m, b))
  }

  /** A pipeline with any number of ampersands after it. */
  ghost predicate Job(t: string, cmd: Cmd, a: nat, b: nat)
    decreases b - a, 3
  {
    exists p: Cmd, m: nat :: a <= m <= b && Ampersands(t, p, m, cmd, b) && Pipeline(t, p, a, m)
  }

  /** Jobs separated by semicolons, grouped to the right. */
  ghost predicate Line(t: string, cmd: Cmd, a: nat, b: nat)
    decreases b - a, 4
  {
    || Job(t, cmd, a, b)
    || (cmd.List? && exists m: nat, k: nat ::
          a <= m < k <= b && Symbol(t, ';', m, k) && Job(t, cmd.left, a, m) && Line(t, cmd.right, k, b))
  }

  // ---- the words of a line and of a command ----

  ghost function WordsIn(t: string, a: nat, b: nat): set<Span> {
    set q: nat, eq: nat | a <= q <= b && a <= eq <= b && IsWord(t, Span(q, eq)) :: Span(q, eq)
  }

  lemma WordsInAre(t: string, a: nat, b: nat, w: Span)
    ensures w in WordsIn(t, a, b) <==> a <= w.q && w.eq <= b && IsWord(t, w)
  {
  }

  /** Every word a command mentions, as often as it does. */
  function Tokens(cmd: Cmd): multiset<Span> {
    match cmd
    case Exec(args) => multiset(args)
    case Redir(c, file, _, _) => Tokens(c) + multiset{file}
    case Pipe(l, r) => Tokens(l) + Tokens(r)
    case List(l, r) => Tokens(l) + Tokens(r)
    case Back(c) => Tokens(c)
  }

  /** No word runs across position m. */
  predicate Boundary(t: string, m: nat) {
    m <= |t| && (m == 0 || m == |t| || !IsWordChar(t[m - 1]) || !IsWordChar(t[m]))
  }

  lemma SplitWords(t: string, a: nat, m: nat, b: nat)
    requires a <= m <= b <= |t| && Boundary(t, m)
    ensures multiset(WordsIn(t, a, b)) == multiset(WordsIn(t, a, m)) + multiset(WordsIn(t, m, b))
  {
    forall w: Span
      ensures w in WordsIn(t, a, b) <==> w in WordsIn(t, a, m) || w in WordsIn(t, m, b)
      ensures !(w in WordsIn(t, a, m) && w in WordsIn(t, m, b))
    {
      WordsInAre(t, a, b, w);
      WordsInAre(t, a, m, w);
      WordsInAre(t, m, b, w);
    }
  }

  lemma BlankHasNoWords(t: string, a: nat, b: nat)
    requires Blank(t, a, b)
    ensures WordsIn(t, a, b) == {}
  {
    forall w: Span
      ensures w !in WordsIn(t, a, b)
    {
      WordsInAre(t, a, b, w);
      assert IsWord(t, w) ==> IsWordChar(t[w.q]);
    }
  }

  lemma WordPartIsOneWord(t: string, w: Span, a: nat, b: nat)
    requires WordPart(t, w, a, b)
    ensures a < b <= |t| && Boundary(t, a) && Boundary(t, b) && WordsIn(t, a, b) == {w}
  {
    assert IsWordChar(t[w.q]);
    forall v: Span
      ensures v in WordsIn(t, a, b) <==> v == w
    {
      WordsInAre(t, a, b, v);
      if v in WordsIn(t, a, b) {
        assert IsWordChar(t[v.q]);
        WordsApart(t, v, w);
      }
    }
  }

  lemma NoWordChars(t: string, a: nat, b: nat)
    requires a <= b <= |t| && forall i | a <= i < b :: !IsWordChar(t[i])
    ensures WordsIn(t, a, b) == {}
  {
    forall w: Span
      ensures w !in WordsIn(t, a, b)
    {
      WordsInAre(t, a, b, w);
      assert IsWord(t, w) ==> IsWordChar(t[w.q]);
    }
  }

  lemma SymbolHasNoWords(t: string, c: char, a: nat, b: nat)
    requires Symbol(t, c, a, b) && IsSymbol(c)
    ensures a < b <= |t| && Boundary(t, a) && Boundary(t, b) && WordsIn(t, a, b) == {}
  {
    NoWordChars(t, a, b);
  }

  lemma RedirPartIsOneWord(t: string, file: Span, mode: nat, fd: nat, a: nat, b: nat)
    requires RedirPart(t, file, mode, fd, a, b)
    ensures a < b <= |t| && Boundary(t, a) && Boundary(t, b) && multiset(WordsIn(t, a, b)) == multiset{file}
  {
    var m: nat :| RedirSymbol(t, mode, fd, a, m) && WordPart(t, file, m, b);
    WordPartIsOneWord(t, file, m, b);
    NoWordChars(t, a, m);
    SplitWords(t, a, m, b);
  }

  lemma {:induction false} TokensWithArgs(cmd: Cmd)
    requires IsSimple(cmd) && ArgsOf(cmd) != []
    ensures Tokens(cmd) == Tokens(ButLastArg(cmd)) + multiset{LastArg(cmd)}
  {
    match cmd
    case Exec(args) =>
      assert args == args[..|args| - 1] + [args[|args| - 1]];
    case Redir(c, _, _, _) =>
      TokensWithArgs(c);
  }

  lemma BoundaryInside(t: string, a: nat)
    requires Boundary(t, a)
    ensures a <= |t|
  {
  }

  lemma {:induction false} ItemsTokens(t: string, words: bool, cmd0: Cmd, a: nat, cmd: Cmd, b: nat)
    requires Items(t, words, cmd0, a, cmd, b) && Boundary(t, a)
    ensures a <= b <= |t| && Boundary(t, b) && Tokens(cmd) == Tokens(cmd0) + multiset(WordsIn(t, a, b))
    decreases b - a
  {
    hide Boundary, WordsIn, IsWord, RedirPart, WordPart, LastArg, ButLastArg;
    if cmd == cmd0 && a == b {
      BoundaryInside(t, a);
      NoWordChars(t, a, b);
    } else if m: nat :|
            && cmd.Redir? && a <= m < b && RedirPart(t, cmd.file, cmd.mode, cmd.fd, m, b)
            && Items(t, words, cmd0, a, cmd.cmd, m) {
      ItemsTokens(t, words, cmd0, a, cmd.cmd, m);
      RedirPartIsOneWord(t, cmd.file, cmd.mode, cmd.fd, m, b);
      SplitWords(t, a, m, b);
    } else {
      var m: nat :| a <= m < b && WordPart(t, LastArg(cmd), m, b) && Items(t, words, cmd0, a, ButLastArg(cmd), m);
      ItemsTokens(t, words, cmd0, a, ButLastArg(cmd), m);
      WordPartIsOneWord(t, LastArg(cmd), m, b);
      SplitWords(t, a, m, b);
      TokensWithArgs(cmd);
    }
  }

  lemma {:induction false} PartTokens(t: string, cmd: Cmd, a: nat, b: nat)
    requires Part(t, cmd, a, b) && Boundary(t, a)
    ensures a <= b <= |t| && Boundary(t, b) && Tokens(cmd) == multiset(WordsIn(t, a, b))
    decreases b - a, 1
  {
    if Items(t, true, Exec([]), a, cmd, b) {
      ItemsTokens(t, true, Exec([]), a, cmd, b);
    } else {
      var c: Cmd, i: nat, j: nat, k: nat :| a < i <= j < k <= b && Around(t, c, cmd, a, i, j, k, b) && Line(t, c, i, j);
      SymbolHasNoWords(t, '(', a, i);
      LineTokens(t, c, i, j);
      SymbolHasNoWords(t, ')', j, k);
      ItemsTokens(t, false, c, k, cmd, b);
      SplitWords(t, a, i, b);
      SplitWords(t, i, j, b);
      SplitWords(t, j, k, b);
    }
  }

  lemma {:induction false} PipelineTokens(t: string, cmd: Cmd, a: nat, b: nat)
    requires Pipeline(t, cmd, a, b) && Boundary(t, a)
    ensures a <= b <= |t| && Boundary(t, b) && Tokens(cmd) == multiset(WordsIn(t, a, b))
    decreases b - a, 2
  {
    if Part(t, cmd, a, b) {
      PartTokens(t, cmd, a, b);
    } else {
      var m: nat, k: nat :| a <= m < k <= b && Symbol(t, '|', m, k) && Part(t, cmd.left, a, m)
        && Pipeline(t, cmd.right, k, b);
      PartTokens(t, cmd.left, a, m);
      SymbolHasNoWords(t, '|', m, k);
      PipelineTokens(t, cmd.right, k, b);
      SplitWords(t, a, m, b);
      SplitWords(t, m, k, b);
    }
  }

  lemma {:induction false} AmpersandsTokens(t: string, cmd0: Cmd, a: nat, cmd: Cmd, b: nat)
    requires Ampersands(t, cmd0, a, cmd, b) && Boundary(t, a)
    ensures a <= b <= |t| && Boundary(t, b) && WordsIn(t, a, b) == {} && Tokens(cmd) == Tokens(cmd0)
    decreases cmd
  {
    if cmd == cmd0 && a == b {
      NoWordChars(t, a, b);
    } else {
      var m: nat :| a <= m < b && Ampersands(t, cmd0, a, cmd.cmd, m) && Symbol(t, '&', m, b);
      AmpersandsTokens(t, cmd0, a, cmd.cmd, m);
      SymbolHasNoWords(t, '&', m, b);
      SplitWords(t, a, m, b);
    }
  }

  lemma {:induction false} JobTokens(t: string, cmd: Cmd, a: nat, b: nat)
    requires Job(t, cmd, a, b) && Boundary(t, a)
    ensures a <= b <= |t| && Boundary(t, b) && Tokens(cmd) == multiset(WordsIn(t, a, b))
    decreases b - a, 3
  {
    var p: Cmd, m: nat :| a <= m <= b && Ampersands(t, p, m, cmd, b) && Pipeline(t, p, a, m);
    PipelineTokens(t, p, a, m);
    AmpersandsTokens(t, p, m, cmd, b);
    SplitWords(t, a, m, b);
  }

  /** Every word of the line is mentioned exactly once by the command it stands for, and nothing else is. */
  lemma {:induction false} LineTokens(t: string, cmd: Cmd, a: nat, b: nat)
    requires Line(t, cmd, a, b) && Boundary(t, a)
    ensures a <= b <= |t| && Boundary(t, b) && Tokens(cmd) == multiset(WordsIn(t, a, b))
    decreases b - a, 4
  {
    if Job(t, cmd, a, b) {
      JobTokens(t, cmd, a, b);
    } else {
      var m: nat, k: nat :| a <= m < k <= b && Symbol(t, ';', m, k) && Job(t, cmd.left, a, m)
        && Line(t, cmd.right, k, b);
      JobTokens(t, cmd.left, a, m);
      SymbolHasNoWords(t, ';', m, k);
      LineTokens(t, cmd.right, k, b);
      SplitWords(t, a, m, b);
      SplitWords(t, m, k, b);
    }
  }

  /** Two words of a line are the same one or have at least one character between them. */
  lemma WordsApart(t: string, v: Span, w: Span)
    requires IsWord(t, v) && IsWord(t, w)
    ensures v == w || v.eq < w.q || w.eq < v.q
  {
    assert forall i | v.q <= i < v.eq :: IsWordChar(t[i]);
    assert forall i | w.q <= i < w.eq :: IsWordChar(t[i]);
    assert IsWordChar(t[v.q]) && IsWordChar(t[w.q]) && IsWordChar(t[v.eq - 1]) && IsWordChar(t[w.eq - 1]);
    if v.eq >= w.q && w.eq >= v.q {
      assert v.q == w.q;
      assert v.eq == w.eq;
    }
  }

  // ---- what comes first decides how to go on ----

  lemma GapUnique(t: string, a: nat, b: nat, c: nat)
    requires Gap(t, a, b) && Gap(t, a, c)
    ensures b == c
  {
  }

  lemma WordUnique(t: string, v: Span, w: Span, a: nat, b: nat, c: nat)
    requires WordPart(t, v, a, b) && WordPart(t, w, a, c)
    ensures v == w && b == c
  {
    WordsApart(t, v, w);
    GapUnique(t, v.eq, b, c);
  }

  lemma {:induction false} WithArgsFacts(cmd: Cmd, args: seq<Span>)
    requires IsSimple(cmd)
    ensures IsSimple(WithArgs(cmd, args)) && ArgsOf(WithArgs(cmd, args)) == args
    ensures WithArgs(WithArgs(cmd, args), ArgsOf(cmd)) == cmd
  {
    if cmd.Redir? { WithArgsFacts(cmd.cmd, args); }
  }

  function WithWord(cmd: Cmd, w: Span): Cmd {
    WithArgs(cmd, ArgsOf(cmd) + [w])
  }

  lemma WithWordFacts(cmd: Cmd, w: Span)
    requires IsSimple(cmd)
    ensures IsSimple(WithWord(cmd, w)) && ArgsOf(WithWord(cmd, w)) == ArgsOf(cmd) + [w]
    ensures LastArg(WithWord(cmd, w)) == w && ButLastArg(WithWord(cmd, w)) == cmd
  {
    WithArgsFacts(cmd, ArgsOf(cmd) + [w]);
    assert (ArgsOf(cmd) + [w])[..|ArgsOf(cmd)|] == ArgsOf(cmd);
  }

  lemma ButLastThenLast(cmd: Cmd)
    requires IsSimple(cmd) && ArgsOf(cmd) != []
    ensures IsSimple(ButLastArg(cmd)) && WithWord(ButLastArg(cmd), LastArg(cmd)) == cmd
  {
    var args := ArgsOf(cmd);
    WithArgsFacts(cmd, args[..|args| - 1]);
    assert args[..|args| - 1] + [args[|args| - 1]] == args;
    WithTwice(cmd, args[..|args| - 1], args);
    WithArgsSame(cmd);
  }

  lemma {:induction false} WithTwice(cmd: Cmd, a: seq<Span>, b: seq<Span>)
    ensures WithArgs(WithArgs(cmd, a), b) == WithArgs(cmd, b)
  {
    if cmd.Redir? { WithTwice(cmd.cmd, a, b); }
  }

  lemma {:induction false} WithArgsSame(cmd: Cmd)
    requires IsSimple(cmd)
    ensures WithArgs(cmd, ArgsOf(cmd)) == cmd
  {
    if cmd.Redir? { WithArgsSame(cmd.cmd); }
  }

  /** The first item of a stretch: a redirection, or a word. */
  datatype First = FirstRedir(file: Span, mode: nat, fd: nat, k: nat) | FirstWord(w: Span, k: nat)

  ghost predicate StartsWith(t: string, words: bool, cmd0: Cmd, a: nat, cmd: Cmd, b: nat, f: First) {
    && a < f.k <= b
    && match f
       case FirstRedir(file, mode, fd, k) =>
         RedirPart(t, file, mode, fd, a, k) && Items(t, words, Redir(cmd0, file, mode, fd), k, cmd, b)
       case FirstWord(w, k) =>
         words && IsSimple(cmd0) && WordPart(t, w, a, k) && Items(t, words, WithWord(cmd0, w), k, cmd, b)
  }

  /** Items built up from the right can be taken off from the left. */
  lemma {:induction false} TakeFirst(t: string, words: bool, cmd0: Cmd, a: nat, cmd: Cmd, b: nat) returns (f: First)
    requires Items(t, words, cmd0, a, cmd, b) && a < b
    ensures StartsWith(t, words, cmd0, a, cmd, b, f)
    decreases b - a
  {
    if m: nat :|
            && cmd.Redir? && a <= m < b && RedirPart(t, cmd.file, cmd.mode, cmd.fd, m, b)
            && Items(t, words, cmd0, a, cmd.cmd, m) {
      if a == m {
        f := FirstRedir(cmd.file, cmd.mode, cmd.fd, b);
      } else {
        f := TakeFirst(t, words, cmd0, a, cmd.cmd, m);
      }
    } else {
      var m: nat :| a <= m < b && WordPart(t, LastArg(cmd), m, b) && Items(t, words, cmd0, a, ButLastArg(cmd), m);
      ButLastThenLast(cmd);
      if a == m {
        f := FirstWord(LastArg(cmd), b);
      } else {
        f := TakeFirst(t, words, cmd0, a, ButLastArg(cmd), m);
      }
    }
  }

  /** The character at b, NUL at the end. */
  function Next(t: string, b: nat): char {
    if b < |t| then t[b] else 0 as char
  }

  lemma FirstChar(t: string, words: bool, cmd0: Cmd, a: nat, cmd: Cmd, b: nat, f: First)
    requires StartsWith(t, words, cmd0, a, cmd, b, f)
    ensures a < |t| && (if f.FirstRedir? then t[a] in {'<', '>'} else words && IsWordChar(t[a]))
  {
    if f.FirstWord? {
      assert IsWordChar(t[f.w.q]);
    }
  }

  /** Where the next character starts no item, there is none. */
  lemma NoItem(t: string, words: bool, cmd0: Cmd, a: nat, cmd: Cmd, b: nat)
    requires Items(t, words, cmd0, a, cmd, b) && a <= |t|
    requires a < |t| ==> t[a] !in {'<', '>'} && (words ==> !IsWordChar(t[a]))
    ensures a == b && cmd == cmd0
  {
    if a < b {
      var f := TakeFirst(t, words, cmd0, a, cmd, b);
      FirstChar(t, words, cmd0, a, cmd, b, f);
    }
  }
}
