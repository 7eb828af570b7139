/**
  The shell's grammar as rules over the tokens of a line, apart from how the parser walks
  through it: the parser accepts exactly the lines that the rules derive, and gives each the
  command that its derivation stands for.

    line  ::=  pipe '&'* [ ';' line ]
    pipe  ::=  exec [ '|' pipe ]
    exec  ::=  '(' line ')' redir*  |  redir* ( word redir* )*
    redir ::=  '<' word  |  '>' word  |  '>>' word
 */
module ShellGrammar {
  import opened ShellSpec

  /** A token of the line without its place. */
  datatype Lex = Mark(c: char) | Double | Name(text: string)

  // ---------------------------------------------------------------- rules

  /** A word of a simple command, and the redirections that follow it. */
  datatype Argument = Argument(word: string, tos: seq<To>)

  datatype ExecRule = Simple(tos: seq<To>, args: seq<Argument>) | Block(line: LineRule, tos: seq<To>)
  datatype PipeRule = Last(exec: ExecRule) | Into(exec: ExecRule, pipe: PipeRule)
  datatype LineRule = Ended(pipe: PipeRule, backs: nat) | Then(pipe: PipeRule, backs: nat, line: LineRule)

  function SignOf(m: Mode): (l: Lex) {
    match m case In => Mark('<') case Out => Mark('>') case Extend => Double
  }

  function OfTos(tos: seq<To>): (ls: seq<Lex>) {
    if tos == [] then [] else [SignOf(tos[0].mode), Name(tos[0].file)] + OfTos(tos[1..])
  }

  function OfArgs(args: seq<Argument>): (ls: seq<Lex>) {
    if args == [] then [] else [Name(args[0].word)] + OfTos(args[0].tos) + OfArgs(args[1..])
  }

  function Ampersands(n: nat): (ls: seq<Lex>) {
    if n == 0 then [] else [Mark('&')] + Ampersands(n - 1)
  }

  /** The tokens that a derivation yields. */
  function OfExec(d: ExecRule): (ls: seq<Lex>) {
    match d
    case Simple(tos, args) => OfTos(tos) + OfArgs(args)
    case Block(line, tos) => [Mark('(')] + OfLine(line) + [Mark(')')] + OfTos(tos)
  }

  function OfPipe(d: PipeRule): (ls: seq<Lex>) {
    match d
    case Last(exec) => OfExec(exec)
    case Into(exec, pipe) => OfExec(exec) + [Mark('|')] + OfPipe(pipe)
  }

  function OfLine(d: LineRule): (ls: seq<Lex>) {
    match d
    case Ended(pipe, backs) => OfPipe(pipe) + Ampersands(backs)
    case Then(pipe, backs, line) => OfPipe(pipe) + Ampersands(backs) + [Mark(';')] + OfLine(line)
  }

  // ---------------------------------------------------------------- what the rules mean

  function Words(args: seq<Argument>): (ws: seq<string>)
    ensures |ws| == |args|
  {
    if args == [] then [] else [args[0].word] + Words(args[1..])
  }

  function AllTos(args: seq<Argument>): (tos: seq<To>) {
    if args == [] then [] else args[0].tos + AllTos(args[1..])
  }

  function InBack(t: Tree, n: nat): (r: Tree)
    decreases n
  {
    if n == 0 then t else InBack(TBack(t), n - 1)
  }

  function ExecTree(d: ExecRule): (t: Tree) {
    match d
    case Simple(tos, args) => Wrapped(TExec(Words(args)), tos + AllTos(args))
    case Block(line, tos) => Wrapped(LineTree(line), tos)
  }

  function PipeTree(d: PipeRule): (t: Tree) {
    match d
    case Last(exec) => ExecTree(exec)
    case Into(exec, pipe) => TPipe(ExecTree(exec), PipeTree(pipe))
  }

  function LineTree(d: LineRule): (t: Tree) {
    match d
    case Ended(pipe, backs) => InBack(PipeTree(pipe), backs)
    case Then(pipe, backs, line) => TList(InBack(PipeTree(pipe), backs), LineTree(line))
  }

  /** No simple command has more arguments than its record has room for. */
  predicate ExecFits(d: ExecRule) {
    match d
    case Simple(tos, args) => |args| < MAXARGS
    case Block(line, tos) => LineFits(line)
  }

  predicate PipeFits(d: PipeRule) {
    match d
    case Last(exec) => ExecFits(exec)
    case Into(exec, pipe) => ExecFits(exec) && PipeFits(pipe)
  }

  predicate LineFits(d: LineRule) {
    match d
    case Ended(pipe, backs) => PipeFits(pipe)
    case Then(pipe, backs, line) => PipeFits(pipe) && LineFits(line)
  }

  // ---------------------------------------------------------------- tokens of a line

  function LexOf(tok: Token): (l: Lex)
    requires !tok.End?
  {
    match tok case Sym(c) => Mark(c) case Append => Double case AWord(w) => Name(w.text)
  }

  function Lexed(s: string): (ls: seq<Lex>)
    decreases |s|
  {
    var g := GetToken(s);
    if g.tok.End? then [] else [LexOf(g.tok)] + Lexed(g.rest)
  }

  /** The token is, or begins with, one of the characters. */
  predicate Among(l: Lex, toks: string) {
    match l case Mark(c) => c in toks case Double => '>' in toks case Name(text) => false
  }

  predicate Begins(ls: seq<Lex>, toks: string) {
    ls != [] && Among(ls[0], toks)
  }

  ghost predicate Symbols(toks: string) {
    forall i :: 0 <= i < |toks| ==> Symbol(toks[i])
  }

  lemma Reads(s: string)
    ensures GetToken(Skip(s)) == GetToken(s) && Lexed(Skip(s)) == Lexed(s)
    ensures GetToken(s).tok.End? <==> Skip(s) == ""
    ensures GetToken(s).tok.End? <==> Lexed(s) == []
  {
    SkipFlush(Skip(s));
  }

  lemma Looks(s: string, toks: string)
    requires Symbols(toks)
    ensures Peek(s, toks) <==> Begins(Lexed(s), toks)
  {
    SkipFlush(Skip(s));
  }

  // ---------------------------------------------------------------- redirections under and over a command

  lemma {:induction false} WrappedTwice(t: Tree, a: seq<To>, b: seq<To>)
    ensures Wrapped(Wrapped(t, a), b) == Wrapped(t, a + b)
  {
    if b == [] {
      assert a + b == a;
    } else {
      var k := |b| - 1;
      WrappedTwice(t, a, b[..k]);
      assert (a + b)[..|a| + k] == a + b[..k];
    }
  }

  lemma {:induction false} WithArgTree(cmd: Cmd, w: Word, words: seq<string>, tos: seq<To>)
    requires TreeOf(cmd) == Wrapped(TExec(words), tos)
    ensures TreeOf(WithArg(cmd, w)) == Wrapped(TExec(words + [w.text]), tos)
    decreases |tos|
  {
    if tos == [] {
      TextsPush(cmd.args, w);
    } else {
      WithArgTree(cmd.cmd, w, words, tos[..|tos| - 1]);
    }
  }

  // ---------------------------------------------------------------- what is accepted is derived

  lemma NameOf(tok: Token)
    requires tok.AWord?
    ensures LexOf(tok) == Name(tok.w.text)
  {
  }

  lemma RedirOpens(s: string)
    requires Peek(s, "<>")
    ensures var g := GetToken(Skip(s)); !g.tok.End? && LexOf(g.tok) == SignOf(ModeOf(g.tok)) && Lexed(s) == [LexOf(g.tok)] + Lexed(g.rest)
  {
    Reads(s);
    SkipFlush(Skip(s));
  }

  lemma {:induction false} RedirsDerived(cmd: Cmd, s: string) returns (tos: seq<To>)
    requires ParseRedirs(cmd, s).Ok?
    ensures var o := ParseRedirs(cmd, s); Lexed(s) == OfTos(tos) + Lexed(o.rest) && TreeOf(o.cmd) == Wrapped(TreeOf(cmd), tos)
    decreases |s|
  {
    hide GetToken, Peek, Skip, Wrapped, LexOf, ModeOf, SignOf;
    if !Peek(s, "<>") {
      tos := [];
      Reads(s);
      WrappedNone(TreeOf(cmd));
    } else {
      RedirOpens(s);
      var g := GetToken(Skip(s));
      var f := GetToken(g.rest);
      NameOf(f.tok);
      var to := To(ModeOf(g.tok), f.tok.w.text);
      var more := RedirsDerived(Redir(cmd, f.tok.w, ModeOf(g.tok)), f.rest);
      tos := [to] + more;
      assert tos[1..] == more;
      WrappedFirst(TreeOf(cmd), tos);
    }
  }

  lemma NoArguments(words: seq<string>, tos: seq<To>)
    ensures words + Words([]) == words && tos + AllTos([]) == tos && OfArgs([]) == []
  {
  }

  lemma ArgumentFirst(words: seq<string>, tos: seq<To>, a: Argument, more: seq<Argument>)
    ensures var args := [a] + more;
            && words + Words(args) == words + [a.word] + Words(more) && tos + AllTos(args) == tos + a.tos + AllTos(more)
            && OfArgs(args) == [Name(a.word)] + OfTos(a.tos) + OfArgs(more)
  {
    assert ([a] + more)[1..] == more;
  }

  lemma {:induction false} ArgsDerived(cmd: Cmd, argc: nat, s: string, words: seq<string>, tos: seq<To>) returns (args: seq<Argument>)
    requires ParseArgs(cmd, argc, s).Ok? && TreeOf(cmd) == Wrapped(TExec(words), tos) && |words| == argc < MAXARGS
    ensures var o := ParseArgs(cmd, argc, s);
            && Lexed(s) == OfArgs(args) + Lexed(o.rest) && argc + |args| < MAXARGS
            && TreeOf(o.cmd) == Wrapped(TExec(words + Words(args)), tos + AllTos(args))
    decreases |s|
  {
    hide GetToken, Peek, Skip, Wrapped, ParseRedirs, TreeOf, WithArg, Words, AllTos, OfArgs, OfTos;
    Reads(s);
    var g := GetToken(Skip(s));
    if Peek(s, "|)&;") || g.tok.End? {
      args := [];
      Reads(g.rest);
      NoArguments(words, tos);
    } else {
      var c := WithArg(cmd, g.tok.w);
      WithArgTree(cmd, g.tok.w, words, tos);
      var own := RedirsDerived(c, g.rest);
      WrappedTwice(TExec(words + [g.tok.w.text]), tos, own);
      var r := ParseRedirs(c, g.rest);
      var more := ArgsDerived(r.cmd, argc + 1, r.rest, words + [g.tok.w.text], tos + own);
      args := [Argument(g.tok.w.text, own)] + more;
      ArgumentFirst(words, tos, args[0], more);
    }
  }

  lemma {:induction false} ExecDerived(s: string) returns (d: ExecRule)
    requires ParseExec(s).Ok?
    ensures var o := ParseExec(s); Lexed(s) == OfExec(d) + Lexed(o.rest) && ExecFits(d) && TreeOf(o.cmd) == ExecTree(d)
    decreases |s|, 1
  {
    hide GetToken, Peek, Skip, ParseRedirs, ParseArgs, ParseBlock, Wrapped, Lexed, OfTos, OfArgs, OfLine, Words, AllTos, LineTree, LineFits;
    Reads(s);
    WrappedNone(TExec([]));
    if Peek(s, "(") {
      d := BlockDerived(s);
    } else {
      var r := ParseRedirs(Exec([]), Skip(s));
      var tos := RedirsDerived(Exec([]), Skip(s));
      var args := ArgsDerived(r.cmd, 0, r.rest, [], tos);
      d := Simple(tos, args);
      assert [] + Words(args) == Words(args);
    }
  }

  lemma MarkRead(s: string, c: char)
    requires Peek(s, [c]) && Symbol(c) && c != '>'
    ensures var g := GetToken(Skip(s)); |g.rest| < |s| && Lexed(s) == [Mark(c)] + Lexed(g.rest)
  {
    Reads(s);
    SkipFlush(Skip(s));
  }

  lemma {:induction false} BlockDerived(s: string) returns (d: ExecRule)
    requires Peek(s, "(") && ParseBlock(Skip(s)).Ok?
    ensures var o := ParseBlock(Skip(s)); Lexed(s) == OfExec(d) + Lexed(o.rest) && ExecFits(d) && TreeOf(o.cmd) == ExecTree(d)
    decreases |s|, 0
  {
    hide GetToken, Peek, Skip, ParseRedirs, ParseLine, Wrapped, Lexed, OfTos, OfLine, LineTree, LineFits;
    SkipTwice(s);
    MarkRead(s, '(');
    var inner := GetToken(Skip(s)).rest;
    var line := LineDerived(inner);
    var r := ParseLine(inner);
    MarkRead(r.rest, ')');
    var tos := RedirsDerived(r.cmd, GetToken(Skip(r.rest)).rest);
    d := Block(line, tos);
  }

  lemma SkipTwice(s: string)
    ensures Skip(Skip(s)) == Skip(s) && (Peek(Skip(s), "(") <==> Peek(s, "("))
  {
    SkipFlush(Skip(s));
  }

  lemma {:induction false} PipeDerived(s: string) returns (d: PipeRule)
    requires ParsePipe(s).Ok?
    ensures var o := ParsePipe(s); Lexed(s) == OfPipe(d) + Lexed(o.rest) && PipeFits(d) && TreeOf(o.cmd) == PipeTree(d)
    decreases |s|, 2
  {
    hide GetToken, Peek, Skip, ParseExec, ExecTree, OfExec, ExecFits;
    var e := ExecDerived(s);
    var l := ParseExec(s);
    Reads(l.rest);
    if !Peek(l.rest, "|") {
      d := Last(e);
    } else {
      MarkRead(l.rest, '|');
      var p := PipeDerived(GetToken(Skip(l.rest)).rest);
      d := Into(e, p);
    }
  }

  lemma {:induction false} BacksDerived(cmd: Cmd, s: string) returns (n: nat)
    ensures var o := ParseBacks(cmd, s); Lexed(s) == Ampersands(n) + Lexed(o.rest) && TreeOf(o.cmd) == InBack(TreeOf(cmd), n)
    decreases |s|
  {
    hide GetToken, Peek, Skip;
    Reads(s);
    if !Peek(s, "&") {
      n := 0;
    } else {
      MarkRead(s, '&');
      var m := BacksDerived(Back(cmd), GetToken(Skip(s)).rest);
      n := m + 1;
    }
  }

  lemma {:induction false} LineDerived(s: string) returns (d: LineRule)
    requires ParseLine(s).Ok?
    ensures var o := ParseLine(s); Lexed(s) == OfLine(d) + Lexed(o.rest) && LineFits(d) && TreeOf(o.cmd) == LineTree(d)
    decreases |s|, 3
  {
    hide GetToken, Peek, Skip, ParsePipe, ParseBacks, PipeTree, OfPipe, PipeFits, Ampersands, InBack;
    var e := PipeDerived(s);
    var p := ParsePipe(s);
    var n := BacksDerived(p.cmd, p.rest);
    var b := ParseBacks(p.cmd, p.rest);
    Reads(b.rest);
    if !Peek(b.rest, ";") {
      d := Ended(e, n);
    } else {
      MarkRead(b.rest, ';');
      var l := LineDerived(GetToken(Skip(b.rest)).rest);
      d := Then(e, n, l);
    }
  }

  // ---------------------------------------------------------------- what is derived is accepted

  /** The next token, if the tokens of the line begin with it. */
  lemma TokenIs(s: string, l: Lex, after: seq<Lex>)
    requires Lexed(s) == [l] + after
    ensures var g := GetToken(Skip(s)); g == GetToken(s) && !g.tok.End? && LexOf(g.tok) == l && Lexed(g.rest) == after && |g.rest| < |s|
  {
    Reads(s);
    assert Lexed(s)[0] == l && Lexed(s)[1..] == after;
  }

  lemma {:induction false} RedirsParsed(cmd: Cmd, s: string, tos: seq<To>, after: seq<Lex>)
    requires Lexed(s) == OfTos(tos) + after && !Begins(after, "<>")
    ensures var o := ParseRedirs(cmd, s); o.Ok? && Lexed(o.rest) == after && TreeOf(o.cmd) == Wrapped(TreeOf(cmd), tos)
    decreases |tos|
  {
    hide GetToken, Peek, Skip, Wrapped, Lexed;
    Looks(s, "<>");
    Reads(s);
    if tos == [] {
      assert Lexed(s) == after;
      WrappedNone(TreeOf(cmd));
    } else {
      var more := OfTos(tos[1..]) + after;
      assert Lexed(s) == [SignOf(tos[0].mode)] + ([Name(tos[0].file)] + more);
      TokenIs(s, SignOf(tos[0].mode), [Name(tos[0].file)] + more);
      var g := GetToken(Skip(s));
      TokenIs(g.rest, Name(tos[0].file), more);
      var f := GetToken(g.rest);
      RedirsParsed(Redir(cmd, f.tok.w, ModeOf(g.tok)), f.rest, tos[1..], after);
      WrappedFirst(TreeOf(cmd), tos);
    }
  }

  lemma {:induction false} ArgsParsed(cmd: Cmd, argc: nat, s: string, words: seq<string>, tos: seq<To>, args: seq<Argument>, after: seq<Lex>)
    requires TreeOf(cmd) == Wrapped(TExec(words), tos) && |words| == argc && argc + |args| < MAXARGS
    requires Lexed(s) == OfArgs(args) + after && (after == [] || Begins(after, "|)&;"))
    ensures var o := ParseArgs(cmd, argc, s);
            o.Ok? && Lexed(o.rest) == after && TreeOf(o.cmd) == Wrapped(TExec(words + Words(args)), tos + AllTos(args))
    decreases |args|
  {
    hide GetToken, Peek, Skip, Wrapped, Lexed, ParseRedirs, TreeOf, WithArg, Words, AllTos, OfArgs, OfTos;
    if args == [] {
      NoArguments(words, tos);
      assert OfArgs(args) + after == after;
      ArgsOver(cmd, argc, s, after);
    } else {
      var a, more := args[0], args[1..];
      assert args == [a] + more;
      ArgumentFirst(words, tos, a, more);
      var ls := OfArgs(more) + after;
      assert Lexed(s) == [Name(a.word)] + (OfTos(a.tos) + ls);
      ArgsQuiet(more, after);
      var r := ArgParsed(cmd, argc, s, words, tos, a, ls);
      ArgsParsed(r.cmd, argc + 1, r.rest, words + [a.word], tos + a.tos, more, after);
    }
  }

  lemma ArgsOver(cmd: Cmd, argc: nat, s: string, after: seq<Lex>)
    requires Lexed(s) == after && (after == [] || Begins(after, "|)&;"))
    ensures var o := ParseArgs(cmd, argc, s); o.Ok? && o.cmd == cmd && Lexed(o.rest) == after
  {
    Looks(s, "|)&;");
    Reads(s);
  }

  lemma ArgParsed(cmd: Cmd, argc: nat, s: string, words: seq<string>, tos: seq<To>, a: Argument, after: seq<Lex>) returns (r: Outcome)
    requires TreeOf(cmd) == Wrapped(TExec(words), tos) && argc + 1 < MAXARGS
    requires Lexed(s) == [Name(a.word)] + (OfTos(a.tos) + after) && !Begins(after, "<>")
    ensures r.Ok? && Lexed(r.rest) == after && TreeOf(r.cmd) == Wrapped(TExec(words + [a.word]), tos + a.tos)
    ensures ParseArgs(cmd, argc, s) == ParseArgs(r.cmd, argc + 1, r.rest)
  {
    hide GetToken, Peek, Skip, Wrapped, Lexed, ParseRedirs, TreeOf, WithArg, OfTos;
    Looks(s, "|)&;");
    TokenIs(s, Name(a.word), OfTos(a.tos) + after);
    var g := GetToken(Skip(s));
    r := ParseRedirs(WithArg(cmd, g.tok.w), g.rest);
    WithArgTree(cmd, g.tok.w, words, tos);
    RedirsParsed(WithArg(cmd, g.tok.w), g.rest, a.tos, after);
    WrappedTwice(TExec(words + [a.word]), tos, a.tos);
  }

  lemma ArgsQuiet(args: seq<Argument>, after: seq<Lex>)
    requires after == [] || Begins(after, "|)&;")
    ensures !Begins(OfArgs(args) + after, "<>") && !Begins(OfArgs(args) + after, "(")
  {
    if args != [] {
      assert (OfArgs(args) + after)[0] == Name(args[0].word);
    }
  }

  lemma SimpleQuiet(tos: seq<To>, args: seq<Argument>, after: seq<Lex>)
    requires after == [] || Begins(after, "|)&;")
    ensures !Begins(OfTos(tos) + OfArgs(args) + after, "(")
  {
    ArgsQuiet(args, after);
    if tos == [] {
      assert OfTos(tos) + OfArgs(args) + after == OfArgs(args) + after;
    } else {
      assert (OfTos(tos) + OfArgs(args) + after)[0] == SignOf(tos[0].mode);
    }
  }

  lemma {:induction false} ExecParsed(d: ExecRule, s: string, after: seq<Lex>)
    requires ExecFits(d) && Lexed(s) == OfExec(d) + after && (after == [] || Begins(after, "|)&;"))
    ensures var o := ParseExec(s); o.Ok? && Lexed(o.rest) == after && TreeOf(o.cmd) == ExecTree(d)
    decreases d, 1
  {
    hide GetToken, Peek, Skip, ParseRedirs, ParseArgs, ParseBlock, Wrapped, Lexed, OfTos, OfArgs, OfLine, Words, AllTos, LineTree, LineFits;
    Looks(s, "(");
    Reads(s);
    match d
    case Block(line, tos) =>
      BlockParsed(line, tos, s, after);
    case Simple(tos, args) =>
      SimpleQuiet(tos, args, after);
      ArgsQuiet(args, after);
      assert Lexed(s) == OfTos(tos) + (OfArgs(args) + after);
      RedirsParsed(Exec([]), Skip(s), tos, OfArgs(args) + after);
      var r := ParseRedirs(Exec([]), Skip(s));
      ArgsParsed(r.cmd, 0, r.rest, [], tos, args, after);
      assert [] + Words(args) == Words(args);
  }

  lemma {:induction false} BlockParsed(line: LineRule, tos: seq<To>, s: string, after: seq<Lex>)
    requires LineFits(line) && Lexed(s) == OfExec(Block(line, tos)) + after && (after == [] || Begins(after, "|)&;"))
    ensures Peek(s, "(") && var o := ParseBlock(Skip(s)); o.Ok? && Lexed(o.rest) == after && TreeOf(o.cmd) == Wrapped(LineTree(line), tos)
    decreases line, 4
  {
    hide GetToken, Peek, Skip, ParseRedirs, ParseLine, Wrapped, Lexed, OfTos, OfLine, LineTree, LineFits;
    var tail := [Mark(')')] + (OfTos(tos) + after);
    assert Lexed(s) == [Mark('(')] + (OfLine(line) + tail);
    Looks(s, "(");
    SkipTwice(s);
    TokenIs(s, Mark('('), OfLine(line) + tail);
    var inner := GetToken(Skip(s)).rest;
    LineParsed(line, inner, tail);
    var r := ParseLine(inner);
    Looks(r.rest, ")");
    TokenIs(r.rest, Mark(')'), OfTos(tos) + after);
    RedirsParsed(r.cmd, GetToken(Skip(r.rest)).rest, tos, after);
  }

  lemma {:induction false} PipeParsed(d: PipeRule, s: string, after: seq<Lex>)
    requires PipeFits(d) && Lexed(s) == OfPipe(d) + after && (after == [] || Begins(after, ")&;"))
    ensures var o := ParsePipe(s); o.Ok? && Lexed(o.rest) == after && TreeOf(o.cmd) == PipeTree(d)
    decreases d, 2
  {
    hide GetToken, Peek, Skip, ParseExec, Lexed, OfExec, ExecTree, ExecFits;
    match d
    case Last(exec) =>
      ExecParsed(exec, s, after);
      var l := ParseExec(s);
      Looks(l.rest, "|");
      Reads(l.rest);
    case Into(exec, pipe) =>
      var tail := [Mark('|')] + (OfPipe(pipe) + after);
      assert Lexed(s) == OfExec(exec) + tail;
      ExecParsed(exec, s, tail);
      var l := ParseExec(s);
      Looks(l.rest, "|");
      TokenIs(l.rest, Mark('|'), OfPipe(pipe) + after);
      PipeParsed(pipe, GetToken(Skip(l.rest)).rest, after);
  }

  lemma {:induction false} BacksParsed(n: nat, cmd: Cmd, s: string, after: seq<Lex>)
    requires Lexed(s) == Ampersands(n) + after && !Begins(after, "&")
    ensures var o := ParseBacks(cmd, s); Lexed(o.rest) == after && TreeOf(o.cmd) == InBack(TreeOf(cmd), n)
  {
    hide GetToken, Peek, Skip, Lexed;
    Looks(s, "&");
    Reads(s);
    if n == 0 {
      assert Lexed(s) == after;
    } else {
      assert Lexed(s) == [Mark('&')] + (Ampersands(n - 1) + after);
      TokenIs(s, Mark('&'), Ampersands(n - 1) + after);
      BacksParsed(n - 1, Back(cmd), GetToken(Skip(s)).rest, after);
    }
  }

  lemma AmpersandsThen(n: nat, after: seq<Lex>)
    requires after == [] || Begins(after, ");")
    ensures !Begins(after, "&") && (Ampersands(n) + after == [] || Begins(Ampersands(n) + after, ")&;"))
  {
    if n > 0 {
      assert (Ampersands(n) + after)[0] == Mark('&');
    } else {
      assert Ampersands(n) + after == after;
    }
  }

  lemma {:induction false} LineParsed(d: LineRule, s: string, after: seq<Lex>)
    requires LineFits(d) && Lexed(s) == OfLine(d) + after && (after == [] || Begins(after, ")"))
    ensures var o := ParseLine(s); o.Ok? && Lexed(o.rest) == after && TreeOf(o.cmd) == LineTree(d)
    decreases d, 3
  {
    hide GetToken, Peek, Skip, ParsePipe, ParseBacks, Lexed, OfPipe, PipeTree, PipeFits, Ampersands, InBack;
    var tail := if d.Ended? then after else [Mark(';')] + (OfLine(d.line) + after);
    assert Lexed(s) == OfPipe(d.pipe) + (Ampersands(d.backs) + tail);
    AmpersandsThen(d.backs, tail);
    PipeParsed(d.pipe, s, Ampersands(d.backs) + tail);
    var p := ParsePipe(s);
    BacksParsed(d.backs, p.cmd, p.rest, tail);
    var b := ParseBacks(p.cmd, p.rest);
    Looks(b.rest, ";");
    Reads(b.rest);
    if d.Then? {
      TokenIs(b.rest, Mark(';'), OfLine(d.line) + after);
      LineParsed(d.line, GetToken(Skip(b.rest)).rest, after);
    }
  }

  /** The derivation d yields the tokens of the line. */
  predicate Derives(d: LineRule, s: string) {
    LineFits(d) && OfLine(d) == Lexed(s)
  }

  ghost predicate Derivable(s: string) {
    exists d :: Derives(d, s)
  }

  /** Every derivation of the line stands for t. */
  ghost predicate StandsFor(s: string, t: Tree) {
    forall d :: Derives(d, s) ==> LineTree(d) == t
  }

  /** A line is accepted exactly if the rules derive it. */
  lemma AcceptsExactly(s: string)
    ensures ParseCmd(s).Ok? <==> Derivable(s)
    ensures ParseCmd(s).Ok? ==> StandsFor(s, TreeOf(ParseCmd(s).cmd))
  {
    if ParseCmd(s).Ok? {
      var d := LineDerived(s);
      Reads(ParseLine(s).rest);
      assert OfLine(d) + [] == OfLine(d);
      assert Derives(d, s);
    }
    forall d | Derives(d, s)
      ensures ParseCmd(s).Ok? && TreeOf(ParseCmd(s).cmd) == LineTree(d)
    {
      MeansDerivation(s, d);
    }
  }

  /** And it means what its derivation stands for, of which there is thus only one. */
  lemma MeansDerivation(s: string, d: LineRule)
    requires Derives(d, s)
    ensures ParseCmd(s).Ok? && TreeOf(ParseCmd(s).cmd) == LineTree(d)
  {
    assert OfLine(d) + [] == OfLine(d);
    LineParsed(d, s, []);
    Reads(ParseLine(s).rest);
  }

  // ---------------------------------------------------------------- lines written from tokens

  function Text(l: Lex): (s: string) {
    match l case Mark(c) => [c] case Double => ">>" case Name(text) => text
  }

  /** The tokens one after the other, each followed by its gap. */
  function Spelled(ls: seq<Lex>, gaps: seq<string>): (s: string)
    requires |gaps| == |ls|
  {
    if ls == [] then "" else Text(ls[0]) + (gaps[0] + Spelled(ls[1..], gaps[1..]))
  }

  ghost predicate Plain(l: Lex) {
    match l
    case Mark(c) => c in "<|>&;()"
    case Double => true
    case Name(text) => text != "" && forall i :: 0 <= i < |text| ==> text[i] !in " \t\r\n\U{0B}<|>&;()"
  }

  /** Two words, and two signs that would read as one, are kept apart. */
  predicate Apart(a: Lex, b: Lex) {
    (a.Name? && b.Name?) || (a == Mark('>') && (b == Mark('>') || b.Double?))
  }

  ghost predicate AllPlain(ls: seq<Lex>) {
    forall i :: 0 <= i < |ls| ==> Plain(ls[i])
  }

  ghost predicate Gapped(ls: seq<Lex>, gaps: seq<string>) {
    && |gaps| == |ls| && (forall i :: 0 <= i < |ls| ==> Blanks(gaps[i]))
    && forall i :: 0 <= i < |ls| - 1 && Apart(ls[i], ls[i + 1]) ==> gaps[i] != ""
  }

  /** What gettoken takes from the beginning of a written line. */
  lemma TokenWritten(l: Lex, gap: string, s: string)
    requires Plain(l) && Blanks(gap) && Flush(s)
    requires gap == "" && s != "" ==> (l.Name? ==> !WordChar(s[0])) && (l == Mark('>') ==> s[0] != '>')
    ensures var g := GetToken(Text(l) + (gap + s)); !g.tok.End? && LexOf(g.tok) == l && g.rest == s
    ensures Flush(Text(l) + (gap + s))
  {
    var t, r := Text(l), gap + s;
    assert (t + r)[0] == t[0];
    assert r != "" ==> r[0] == if gap == "" then s[0] else gap[0];
    SkipFlush(s);
    BlanksIgnored(gap, s, "");
    match l
    case Name(text) =>
      WordToken(text, r);
    case Mark(c) =>
      SkipFlush(t + r);
      assert (t + r)[1..] == r;
    case Double =>
      SkipFlush(t + r);
      assert (t + r)[2..] == r;
  }

  lemma GappedTail(ls: seq<Lex>, gaps: seq<string>)
    requires Gapped(ls, gaps) && ls != []
    ensures Gapped(ls[1..], gaps[1..])
  {
    hide Plain, Blanks, Apart;
    forall i | 0 <= i < |ls[1..]| - 1 && Apart(ls[1..][i], ls[1..][i + 1])
      ensures gaps[1..][i] != ""
    {
      assert Apart(ls[i + 1], ls[i + 2]);
    }
  }

  /** Tokens written with any white space, or none where none is needed, read as those tokens. */
  lemma {:induction false} LexedSpelled(ls: seq<Lex>, gaps: seq<string>)
    requires AllPlain(ls) && Gapped(ls, gaps)
    ensures Lexed(Spelled(ls, gaps)) == ls && Flush(Spelled(ls, gaps))
    decreases |ls|
  {
    hide GetToken, Skip, Flush;
    if ls == [] {
      EmptyLine();
    } else {
      var more, s := ls[1..], Spelled(ls[1..], gaps[1..]);
      GappedTail(ls, gaps);
      LexedSpelled(more, gaps[1..]);
      if more != [] {
        assert s[0] == Text(more[0])[0];
        assert Apart(ls[0], more[0]) ==> gaps[0] != "";
      }
      TokenWritten(ls[0], gaps[0], s);
      assert [ls[0]] + more == ls;
    }
  }

  lemma EmptyLine()
    ensures Lexed("") == [] && Flush("")
  {
  }

  /** A command of the rules, written with any white space, parses to what it stands for. */
  lemma SpelledLine(d: LineRule, lead: string, gaps: seq<string>)
    requires LineFits(d) && Blanks(lead) && AllPlain(OfLine(d)) && Gapped(OfLine(d), gaps)
    ensures var o := ParseCmd(lead + Spelled(OfLine(d), gaps)); o.Ok? && TreeOf(o.cmd) == LineTree(d)
  {
    var s := Spelled(OfLine(d), gaps);
    LexedSpelled(OfLine(d), gaps);
    BlanksIgnored(lead, s, "");
    MeansDerivation(lead + s, d);
  }

  // ---------------------------------------------------------------- a derivation for every command

  /** Words, with the redirections after the last. */
  function WordsThen(words: seq<string>, tos: seq<To>): (args: seq<Argument>)
    requires words != []
    ensures |args| == |words|
  {
    if |words| == 1 then [Argument(words[0], tos)] else [Argument(words[0], [])] + WordsThen(words[1..], tos)
  }

  function Front(t: Tree): (r: Tree) {
    if t.TBack? then Front(t.cmd) else t
  }

  function Backs(t: Tree): (n: nat) {
    if t.TBack? then Backs(t.cmd) + 1 else 0
  }

  function ExecOf(t: Tree): (d: ExecRule)
    decreases t, if t.TExec? || t.TRedir? then 0 else 3
  {
    CoreWithin(t);
    var c := Core(t);
    if !c.TExec? then Block(LineOf(c), Redirs(t))
    else if c.args == [] then Simple(Redirs(t), [])
    else Simple([], WordsThen(c.args, Redirs(t)))
  }

  function PipeOf(t: Tree): (d: PipeRule)
    decreases t, if t.TList? || t.TBack? then 4 else 1
  {
    if t.TPipe? then Into(ExecOf(t.left), PipeOf(t.right)) else Last(ExecOf(t))
  }

  /** With parentheses only around what is not a simple command where the rules ask for one. */
  function LineOf(t: Tree): (d: LineRule)
    decreases t, 2
  {
    var first := if t.TList? then t.left else t;
    FrontWithin(first);
    if t.TList? then Then(PipeOf(Front(first)), Backs(first), LineOf(t.right)) else Ended(PipeOf(Front(first)), Backs(first))
  }

  lemma {:induction false} CoreWithin(t: Tree)
    ensures t.TRedir? ==> (t decreases to Core(t))
    ensures !Core(t).TRedir? && t == Wrapped(Core(t), Redirs(t)) && (WellFormed(t) ==> WellFormed(Core(t)))
  {
    if t.TRedir? {
      CoreWithin(t.cmd);
      assert Redirs(t)[..|Redirs(t)| - 1] == Redirs(t.cmd);
    }
  }

  lemma {:induction false} RedirsPlain(t: Tree)
    requires WellFormed(t)
    ensures AllPlain(OfTos(Redirs(t)))
  {
    hide OfTos;
    if t.TRedir? {
      RedirsPlain(t.cmd);
      OfTosMore(Redirs(t.cmd), To(t.mode, t.file));
      assert Plain(SignOf(t.mode)) && Plain(Name(t.file));
    } else {
      NoTos();
    }
  }

  lemma NoTos()
    ensures OfTos([]) == []
  {
  }

  lemma {:induction false} OfTosMore(rs: seq<To>, r: To)
    ensures OfTos(rs + [r]) == OfTos(rs) + [SignOf(r.mode), Name(r.file)]
  {
    if rs == [] {
      assert rs + [r] == [r] && [r][1..] == [];
    } else {
      OfTosMore(rs[1..], r);
      assert (rs + [r])[1..] == rs[1..] + [r] && (rs + [r])[0] == rs[0];
    }
  }

  lemma {:induction false} FrontWithin(t: Tree)
    ensures t.TBack? ==> (t decreases to Front(t))
    ensures !Front(t).TBack? && t == InBack(Front(t), Backs(t)) && (WellFormed(t) ==> WellFormed(Front(t)))
  {
    if t.TBack? {
      FrontWithin(t.cmd);
      InBackMore(Front(t), Backs(t.cmd));
    }
  }

  lemma {:induction false} InBackMore(t: Tree, n: nat)
    ensures InBack(t, n + 1) == TBack(InBack(t, n))
    decreases n
  {
    if n > 0 {
      InBackMore(TBack(t), n - 1);
    }
  }

  lemma {:induction false} WordsThenAre(words: seq<string>, tos: seq<To>)
    requires words != [] && (forall i :: 0 <= i < |words| ==> IsWord(words[i])) && AllPlain(OfTos(tos))
    ensures Words(WordsThen(words, tos)) == words && AllTos(WordsThen(words, tos)) == tos && AllPlain(OfArgs(WordsThen(words, tos)))
  {
    hide OfTos;
    NoTos();
    assert Plain(Name(words[0]));
    if |words| == 1 {
      assert words == [words[0]];
    } else {
      WordsThenAre(words[1..], tos);
      ArgumentFirst([], [], Argument(words[0], []), WordsThen(words[1..], tos));
    }
  }

  lemma {:induction false} ExecOfIs(t: Tree)
    requires WellFormed(t)
    ensures ExecTree(ExecOf(t)) == t && ExecFits(ExecOf(t)) && AllPlain(OfExec(ExecOf(t)))
    decreases t, if t.TExec? || t.TRedir? then 0 else 3
  {
    hide Redirs, OfTos, OfArgs, Wrapped;
    CoreWithin(t);
    RedirsPlain(t);
    var c := Core(t);
    NoTos();
    NoArguments([], Redirs(t));
    if !c.TExec? {
      LineOfIs(c);
      assert Plain(Mark('(')) && Plain(Mark(')'));
    } else if c.args != [] {
      WordsThenAre(c.args, Redirs(t));
      assert [] + AllTos(WordsThen(c.args, Redirs(t))) == Redirs(t);
    }
  }

  lemma {:induction false} PipeOfIs(t: Tree)
    requires WellFormed(t)
    ensures PipeTree(PipeOf(t)) == t && PipeFits(PipeOf(t)) && AllPlain(OfPipe(PipeOf(t)))
    decreases t, if t.TList? || t.TBack? then 4 else 1
  {
    if t.TPipe? {
      ExecOfIs(t.left);
      PipeOfIs(t.right);
    } else {
      ExecOfIs(t);
    }
  }

  lemma {:induction false} LineOfIs(t: Tree)
    requires WellFormed(t)
    ensures LineTree(LineOf(t)) == t && LineFits(LineOf(t)) && AllPlain(OfLine(LineOf(t)))
    decreases t, 2
  {
    var first := if t.TList? then t.left else t;
    FrontWithin(first);
    PipeOfIs(Front(first));
    PlainAmpersands(Backs(first));
    if t.TList? {
      LineOfIs(t.right);
    }
  }

  lemma {:induction false} PlainAmpersands(n: nat)
    ensures AllPlain(Ampersands(n))
  {
    if n > 0 {
      PlainAmpersands(n - 1);
    }
  }

  /** Any well-formed command, written so with any white space, parses back to that command. */
  lemma RoundTrip(t: Tree, lead: string, gaps: seq<string>)
    requires WellFormed(t) && Blanks(lead) && Gapped(OfLine(LineOf(t)), gaps)
    ensures var o := ParseCmd(lead + Spelled(OfLine(LineOf(t)), gaps)); o.Ok? && TreeOf(o.cmd) == t
  {
    LineOfIs(t);
    SpelledLine(LineOf(t), lead, gaps);
  }

  /** Whatever parses means the same as it does when it is written so. */
  lemma PrintoutMeansSame(line: string, gaps: seq<string>)
    requires ParseCmd(line).Ok? && Gapped(OfLine(LineOf(TreeOf(ParseCmd(line).cmd))), gaps)
    ensures var t := TreeOf(ParseCmd(line).cmd); var o := ParseCmd(Spelled(OfLine(LineOf(t)), gaps)); o.Ok? && TreeOf(o.cmd) == t
  {
    var t := TreeOf(ParseCmd(line).cmd);
    ParsedPlaced(line);
    PlacedWellFormed(line, ParseCmd(line).cmd);
    RoundTrip(t, "", gaps);
    assert "" + Spelled(OfLine(LineOf(t)), gaps) == Spelled(OfLine(LineOf(t)), gaps);
  }

  // ---------------------------------------------------------------- pipelines

  function Named(words: seq<string>): (ls: seq<Lex>) {
    if words == [] then [] else [Name(words[0])] + Named(words[1..])
  }

  /** Simple commands with '|' between them, and the pipeline that they are. */
  function Joined(cs: seq<seq<string>>): (ls: seq<Lex>)
    requires cs != []
  {
    if |cs| == 1 then Named(cs[0]) else Named(cs[0]) + [Mark('|')] + Joined(cs[1..])
  }

  function Nested(cs: seq<seq<string>>): (t: Tree)
    requires cs != []
  {
    if |cs| == 1 then TExec(cs[0]) else TPipe(TExec(cs[0]), Nested(cs[1..]))
  }

  lemma {:induction false} NamedIs(words: seq<string>)
    requires words != []
    ensures OfArgs(WordsThen(words, [])) == Named(words)
  {
    if |words| == 1 {
      assert words[1..] == [];
    } else {
      NamedIs(words[1..]);
      ArgumentFirst([], [], Argument(words[0], []), WordsThen(words[1..], []));
    }
  }

  lemma {:induction false} JoinedIs(cs: seq<seq<string>>)
    requires cs != [] && forall i :: 0 <= i < |cs| ==> WellFormed(TExec(cs[i]))
    ensures WellFormed(Nested(cs)) && OfPipe(PipeOf(Nested(cs))) == Joined(cs)
  {
    if cs[0] != [] {
      NamedIs(cs[0]);
    }
    assert OfExec(ExecOf(TExec(cs[0]))) == Named(cs[0]);
    if |cs| > 1 {
      JoinedIs(cs[1..]);
    }
  }

  /** A pipeline of any length, written with any white space. */
  lemma Pipeline(cs: seq<seq<string>>, lead: string, gaps: seq<string>)
    requires cs != [] && (forall i :: 0 <= i < |cs| ==> WellFormed(TExec(cs[i]))) && Blanks(lead) && Gapped(Joined(cs), gaps)
    ensures var o := ParseCmd(lead + Spelled(Joined(cs), gaps)); o.Ok? && TreeOf(o.cmd) == Nested(cs)
  {
    JoinedIs(cs);
    var t := Nested(cs);
    assert LineOf(t) == Ended(PipeOf(t), 0);
    assert OfLine(LineOf(t)) == Joined(cs);
    RoundTrip(t, lead, gaps);
  }
}
