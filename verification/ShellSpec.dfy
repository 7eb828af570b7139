/**
  The shell's parser: tokens and commands of what remains of a line.
 */
module ShellSpec {

  const MAXARGS := 10

  predicate Space(c: char) {
    c == ' ' || c == '\t' || c == '\r' || c == '\n' || c == '\U{0B}'
  }

  predicate Symbol(c: char) {
    c == '<' || c == '|' || c == '>' || c == '&' || c == ';' || c == '(' || c == ')'
  }

  predicate WordChar(c: char) {
    !Space(c) && !Symbol(c)
  }

  // ---------------------------------------------------------------- tokens

  /** The line from the next character on that is not white space. */
  function Skip(s: string): (r: string)
    ensures |r| <= |s| && (r == "" || !Space(r[0]))
  {
    if s != "" && Space(s[0]) then Skip(s[1..]) else s
  }

  /** The line after the longest word at its beginning. */
  function AfterWord(s: string): (r: string)
    ensures |r| <= |s| && (r == "" || !WordChar(r[0]))
  {
    if s != "" && WordChar(s[0]) then AfterWord(s[1..]) else s
  }

  /** A word and how much of the line follows it, which is where its NUL will go. */
  datatype Word = Word(text: string, left: nat)

  datatype Token = End | Sym(c: char) | Append | AWord(w: Word)

  datatype Got = Got(tok: Token, rest: string)

  /** gettoken */
  function GetToken(s: string): (g: Got)
    ensures |g.rest| <= |s| && (g.tok != End ==> |g.rest| < |s|)
  {
    var r := Skip(s);
    if r == "" then Got(End, r)
    else if r[0] == '>' then
      if |r| > 1 && r[1] == '>' then Got(Append, Skip(r[2..])) else Got(Sym('>'), Skip(r[1..]))
    else if Symbol(r[0]) then Got(Sym(r[0]), Skip(r[1..]))
    else
      var e := AfterWord(r);
      assert |e| < |r|;
      Got(AWord(Word(r[..|r| - |e|], |e|)), Skip(e))
  }

  /** peek */
  predicate Peek(s: string, toks: string) {
    Skip(s) != "" && Skip(s)[0] in toks
  }

  // ---------------------------------------------------------------- commands

  datatype Mode = In | Out | Extend       // O_RDONLY on 0; O_WRONLY|O_CREATE on 1, with and without O_TRUNC

  datatype Cmd =
    | Exec(args: seq<Word>)
    | Redir(cmd: Cmd, file: Word, mode: Mode)
    | Pipe(left: Cmd, right: Cmd)
    | List(left: Cmd, right: Cmd)
    | Back(cmd: Cmd)

  /** Fail is one of the parser's panics. */
  datatype Outcome = Fail | Ok(cmd: Cmd, rest: string)

  predicate Shrinks(o: Outcome, s: string) {
    o.Ok? ==> |o.rest| <= |s|
  }

  function ModeOf(tok: Token): (m: Mode) {
    if tok == Sym('<') then In else if tok == Append then Extend else Out
  }

  /** parseredirs */
  function ParseRedirs(cmd: Cmd, s: string): (o: Outcome)
    ensures Shrinks(o, s)
    decreases |s|
  {
    if !Peek(s, "<>") then Ok(cmd, Skip(s))
    else
      var g := GetToken(Skip(s));
      var f := GetToken(g.rest);
      if !f.tok.AWord? then Fail else ParseRedirs(Redir(cmd, f.tok.w, ModeOf(g.tok)), f.rest)
  }

  /** Add an argument to the command at the bottom of the redirections. */
  function WithArg(cmd: Cmd, w: Word): (c: Cmd) {
    match cmd
    case Exec(args) => Exec(args + [w])
    case Redir(sub, file, mode) => Redir(WithArg(sub, w), file, mode)
    case _ => cmd
  }

  /** parseexec's loop, with argc arguments so far. */
  function ParseArgs(cmd: Cmd, argc: nat, s: string): (o: Outcome)
    ensures Shrinks(o, s)
    decreases |s|
  {
    if Peek(s, "|)&;") then Ok(cmd, Skip(s))
    else
      var g := GetToken(Skip(s));
      if g.tok.End? then Ok(cmd, g.rest)
      else if !g.tok.AWord? then Fail
      else if argc + 1 >= MAXARGS then Fail
      else
        var r := ParseRedirs(WithArg(cmd, g.tok.w), g.rest);
        if r.Fail? then Fail else ParseArgs(r.cmd, argc + 1, r.rest)
  }

  /** parseexec */
  function ParseExec(s: string): (o: Outcome)
    ensures Shrinks(o, s)
    decreases |s|, 1
  {
    if Peek(s, "(") then ParseBlock(Skip(s))
    else
      var r := ParseRedirs(Exec([]), Skip(s));
      if r.Fail? then Fail else ParseArgs(r.cmd, 0, r.rest)
  }

  /** parseblock */
  function ParseBlock(s: string): (o: Outcome)
    ensures Shrinks(o, s)
    decreases |s|, 0
  {
    if !Peek(s, "(") then Fail
    else
      var r := ParseLine(GetToken(Skip(s)).rest);
      if r.Fail? || !Peek(r.rest, ")") then Fail else ParseRedirs(r.cmd, GetToken(Skip(r.rest)).rest)
  }

  /** parsepipe */
  function ParsePipe(s: string): (o: Outcome)
    ensures Shrinks(o, s)
    decreases |s|, 2
  {
    var l := ParseExec(s);
    if l.Fail? then Fail
    else if !Peek(l.rest, "|") then Ok(l.cmd, Skip(l.rest))
    else
      var r := ParsePipe(GetToken(Skip(l.rest)).rest);
      if r.Fail? then Fail else Ok(Pipe(l.cmd, r.cmd), r.rest)
  }

  /** parseline's loop over '&'. */
  function ParseBacks(cmd: Cmd, s: string): (o: Outcome)
    ensures Shrinks(o, s) && o.Ok?
    decreases |s|
  {
    if !Peek(s, "&") then Ok(cmd, Skip(s)) else ParseBacks(Back(cmd), GetToken(Skip(s)).rest)
  }

  /** parseline */
  function ParseLine(s: string): (o: Outcome)
    ensures Shrinks(o, s)
    decreases |s|, 3
  {
    var p := ParsePipe(s);
    if p.Fail? then Fail
    else
      var b := ParseBacks(p.cmd, p.rest);
      if !Peek(b.rest, ";") then Ok(b.cmd, Skip(b.rest))
      else
        var r := ParseLine(GetToken(Skip(b.rest)).rest);
        if r.Fail? then Fail else Ok(List(b.cmd, r.cmd), r.rest)
  }

  /** parsecmd, up to nulterminate. */
  function ParseCmd(s: string): (o: Outcome) {
    var r := ParseLine(s);
    if r.Fail? || Skip(r.rest) != "" then Fail else Ok(r.cmd, "")
  }

  // ---------------------------------------------------------------- trees

  /** A command without the places of its words. */
  datatype Tree =
    | TExec(args: seq<string>)
    | TRedir(cmd: Tree, file: string, mode: Mode)
    | TPipe(left: Tree, right: Tree)
    | TList(left: Tree, right: Tree)
    | TBack(cmd: Tree)

  function Texts(ws: seq<Word>): (ts: seq<string>)
    ensures |ts| == |ws| && forall i :: 0 <= i < |ws| ==> ts[i] == ws[i].text
  {
    if ws == [] then [] else Texts(ws[..|ws| - 1]) + [ws[|ws| - 1].text]
  }

  function TreeOf(cmd: Cmd): (t: Tree) {
    match cmd
    case Exec(args) => TExec(Texts(args))
    case Redir(sub, file, mode) => TRedir(TreeOf(sub), file.text, mode)
    case Pipe(l, r) => TPipe(TreeOf(l), TreeOf(r))
    case List(l, r) => TList(TreeOf(l), TreeOf(r))
    case Back(sub) => TBack(TreeOf(sub))
  }

  ghost predicate IsWord(w: string) {
    w != "" && forall i :: 0 <= i < |w| ==> WordChar(w[i])
  }

  ghost predicate WellFormed(t: Tree) {
    match t
    case TExec(args) => |args| < MAXARGS && forall i :: 0 <= i < |args| ==> IsWord(args[i])
    case TRedir(sub, file, mode) => WellFormed(sub) && IsWord(file)
    case TPipe(l, r) => WellFormed(l) && WellFormed(r)
    case TList(l, r) => WellFormed(l) && WellFormed(r)
    case TBack(sub) => WellFormed(sub)
  }

  // ---------------------------------------------------------------- words and white space

  ghost predicate Flush(s: string) {
    s == "" || !Space(s[0])
  }

  lemma SkipFlush(s: string)
    requires Flush(s)
    ensures Skip(s) == s
  {
  }

  lemma {:induction false} AfterWordOf(w: string, s: string)
    requires (forall i :: 0 <= i < |w| ==> WordChar(w[i])) && (s == "" || !WordChar(s[0]))
    ensures AfterWord(w + s) == s
  {
    if w == "" {
      assert w + s == s;
    } else {
      AfterWordOf(w[1..], s);
      assert (w + s)[1..] == w[1..] + s;
    }
  }

  lemma WordToken(w: string, s: string)
    requires IsWord(w) && (s == "" || !WordChar(s[0]))
    ensures GetToken(w + s) == Got(AWord(Word(w, |s|)), Skip(s))
  {
    assert (w + s)[0] == w[0];
    SkipFlush(w + s);
    AfterWordOf(w, s);
    assert (w + s)[..|w|] == w;
  }

  lemma TextsPush(ws: seq<Word>, w: Word)
    ensures Texts(ws + [w]) == Texts(ws) + [w.text]
  {
    assert (ws + [w])[..|ws|] == ws;
  }

  ghost predicate Blanks(w: string) {
    forall i :: 0 <= i < |w| ==> w[i] in " \t\r\n\U{0B}"
  }

  /** Blanks, tabs, line ends and vertical tabs before a token make no difference. */
  lemma {:induction false} BlanksIgnored(w: string, s: string, toks: string)
    requires Blanks(w)
    ensures Skip(w + s) == Skip(s) && GetToken(w + s) == GetToken(s) && (Peek(w + s, toks) <==> Peek(s, toks))
  {
    if w == "" {
      assert w + s == s;
    } else {
      BlanksIgnored(w[1..], s, toks);
      assert (w + s)[0] == w[0] && (w + s)[1..] == w[1..] + s;
    }
  }

  // ---------------------------------------------------------------- redirections

  datatype To = To(mode: Mode, file: string)

  /** A command under redirections, the first one innermost. */
  function Wrapped(t: Tree, rs: seq<To>): (w: Tree) {
    if rs == [] then t else TRedir(Wrapped(t, rs[..|rs| - 1]), rs[|rs| - 1].file, rs[|rs| - 1].mode)
  }

  function Core(t: Tree): (c: Tree) {
    if t.TRedir? then Core(t.cmd) else t
  }

  function Redirs(t: Tree): (rs: seq<To>) {
    if t.TRedir? then Redirs(t.cmd) + [To(t.mode, t.file)] else []
  }

  lemma {:induction false} WrappedFirst(t: Tree, rs: seq<To>)
    requires rs != []
    ensures Wrapped(t, rs) == Wrapped(TRedir(t, rs[0].file, rs[0].mode), rs[1..])
  {
    if |rs| == 1 {
      assert rs[..0] == [] && rs[1..] == [];
    } else {
      var k := |rs| - 1;
      WrappedFirst(t, rs[..k]);
      assert rs[..k][1..] == rs[1..][..k - 1];
      assert rs[1..][k - 1] == rs[k];
    }
  }

  lemma WrappedNone(t: Tree)
    ensures Wrapped(t, []) == t
  {
  }

  // ---------------------------------------------------------------- words and their places

  ghost predicate Tail(r: string, s: string) {
    |r| <= |s| && s[|s| - |r|..] == r
  }

  /** What remains of a line, with no word cut in two. */
  ghost predicate Suffix(r: string, s: string) {
    Tail(r, s) && (|r| == |s| || r == "" || !WordChar(r[0]) || !WordChar(s[|s| - |r| - 1]))
  }

  lemma SuffixTwice(a: string, b: string, c: string)
    requires Suffix(a, b) && Suffix(b, c)
    ensures Suffix(a, c)
  {
    assert c[|c| - |a|..] == c[|c| - |b|..][|b| - |a|..];
    assert |a| < |b| ==> c[|c| - |a| - 1] == b[|b| - |a| - 1];
  }

  /** The word is a maximal word of the line, where it says. */
  ghost predicate WordAt(s: string, w: Word) {
    && IsWord(w.text) && w.left + |w.text| <= |s|
    && s[|s| - w.left - |w.text|..|s| - w.left] == w.text
    && (w.left > 0 ==> !WordChar(s[|s| - w.left]))
    && (w.left + |w.text| < |s| ==> !WordChar(s[|s| - w.left - |w.text| - 1]))
  }

  lemma TailAt(r: string, s: string, i: nat)
    requires Tail(r, s) && i < |r|
    ensures s[|s| - |r| + i] == r[i]
  {
  }

  lemma WordAtLonger(r: string, s: string, w: Word)
    requires Suffix(r, s) && WordAt(r, w)
    ensures WordAt(s, w)
  {
    hide WordChar;
    var d, k := |s| - |r|, |r| - w.left - |w.text|;
    forall i | 0 <= i < |r|
      ensures s[d + i] == r[i]
    {
      TailAt(r, s, i);
    }
    assert s[d + k..d + k + |w.text|] == r[k..k + |w.text|];
    assert r[k] == w.text[0];
    assert s[d + k] == r[k];
  }

  lemma {:induction false} SkipSuffix(s: string)
    ensures Suffix(Skip(s), s)
  {
    if s != "" && Space(s[0]) {
      SkipSuffix(s[1..]);
      SuffixTwice(Skip(s), s[1..], s);
    }
  }

  lemma {:induction false} AfterWordSuffix(s: string)
    ensures Suffix(AfterWord(s), s) && forall i :: 0 <= i < |s| - |AfterWord(s)| ==> WordChar(s[i])
  {
    if s != "" && WordChar(s[0]) {
      AfterWordSuffix(s[1..]);
      assert s[|s| - |AfterWord(s)|..] == s[1..][|s| - 1 - |AfterWord(s)|..];
      forall i | 0 <= i < |s| - |AfterWord(s)|
        ensures WordChar(s[i])
      {
        assert i > 0 ==> s[i] == s[1..][i - 1];
      }
    }
  }

  lemma WordPlaced(r: string)
    requires r != "" && WordChar(r[0])
    ensures var e := AfterWord(r); |e| < |r| && WordAt(r, Word(r[..|r| - |e|], |e|))
  {
    var e := AfterWord(r);
    AfterWordSuffix(r);
    assert |e| > 0 ==> r[|r| - |e|] == e[0];
  }

  lemma DropSuffix(r: string, k: nat)
    requires k <= |r| && (k > 0 ==> !WordChar(r[k - 1]))
    ensures Suffix(Skip(r[k..]), r)
  {
    SkipSuffix(r[k..]);
    SuffixTwice(Skip(r[k..]), r[k..], r);
  }

  lemma TokenOk(s: string)
    ensures Suffix(GetToken(s).rest, s)
    ensures GetToken(s).tok.AWord? ==> WordAt(s, GetToken(s).tok.w)
  {
    hide Suffix, WordAt, AfterWord, Skip;
    var r := Skip(s);
    SkipSuffix(s);
    var g := GetToken(s);
    if r == "" {
    } else if Symbol(r[0]) {
      DropSuffix(r, 1);
      if |r| > 1 && r[1] == '>' {
        DropSuffix(r, 2);
      }
      SuffixTwice(g.rest, r, s);
    } else {
      WordPlaced(r);
      WordAtLonger(r, s, g.tok.w);
      AfterWordSuffix(r);
      SkipSuffix(AfterWord(r));
      SuffixTwice(g.rest, AfterWord(r), r);
      SuffixTwice(g.rest, r, s);
    }
  }

  /** Every word of the command is where it says, and no command has too many arguments. */
  ghost predicate Placed(s: string, cmd: Cmd) {
    match cmd
    case Exec(args) => |args| < MAXARGS && forall i :: 0 <= i < |args| ==> WordAt(s, args[i])
    case Redir(sub, file, mode) => Placed(s, sub) && WordAt(s, file)
    case Pipe(l, r) => Placed(s, l) && Placed(s, r)
    case List(l, r) => Placed(s, l) && Placed(s, r)
    case Back(sub) => Placed(s, sub)
  }

  /** A command with n arguments under any redirections. */
  predicate Simple(cmd: Cmd, n: nat) {
    match cmd
    case Exec(args) => |args| == n
    case Redir(sub, file, mode) => Simple(sub, n)
    case _ => false
  }

  ghost predicate Fine(line: string, o: Outcome) {
    o.Ok? ==> Suffix(o.rest, line) && Placed(line, o.cmd)
  }

  lemma SkipIn(s: string, line: string)
    requires Suffix(s, line)
    ensures Suffix(Skip(s), line)
  {
    SkipSuffix(s);
    SuffixTwice(Skip(s), s, line);
  }

  lemma TokenIn(s: string, line: string)
    requires Suffix(s, line)
    ensures Suffix(GetToken(s).rest, line) && (GetToken(s).tok.AWord? ==> WordAt(line, GetToken(s).tok.w))
  {
    TokenOk(s);
    SuffixTwice(GetToken(s).rest, s, line);
    if GetToken(s).tok.AWord? {
      WordAtLonger(s, line, GetToken(s).tok.w);
    }
  }

  lemma {:induction false} RedirsFine(line: string, cmd: Cmd, s: string, n: nat)
    requires Suffix(s, line) && Placed(line, cmd)
    ensures Fine(line, ParseRedirs(cmd, s)) && (Simple(cmd, n) && ParseRedirs(cmd, s).Ok? ==> Simple(ParseRedirs(cmd, s).cmd, n))
    decreases |s|
  {
    hide Suffix, WordAt, GetToken, Peek, Skip;
    SkipIn(s, line);
    if Peek(s, "<>") {
      var g := GetToken(Skip(s));
      TokenIn(Skip(s), line);
      var f := GetToken(g.rest);
      TokenIn(g.rest, line);
      if f.tok.AWord? {
        RedirsFine(line, Redir(cmd, f.tok.w, ModeOf(g.tok)), f.rest, n);
      }
    }
  }

  lemma {:induction false} WithArgFine(line: string, cmd: Cmd, w: Word, n: nat)
    requires Placed(line, cmd) && WordAt(line, w) && Simple(cmd, n) && n + 1 < MAXARGS
    ensures Placed(line, WithArg(cmd, w)) && Simple(WithArg(cmd, w), n + 1)
  {
    if cmd.Redir? {
      WithArgFine(line, cmd.cmd, w, n);
    }
  }

  lemma {:induction false} ArgsFine(line: string, cmd: Cmd, n: nat, s: string)
    requires Suffix(s, line) && Placed(line, cmd) && Simple(cmd, n)
    ensures Fine(line, ParseArgs(cmd, n, s))
    decreases |s|
  {
    hide Suffix, WordAt, GetToken, Peek, Skip, WithArg;
    SkipIn(s, line);
    if !Peek(s, "|)&;") {
      var g := GetToken(Skip(s));
      TokenIn(Skip(s), line);
      if g.tok.AWord? && n + 1 < MAXARGS {
        WithArgFine(line, cmd, g.tok.w, n);
        RedirsFine(line, WithArg(cmd, g.tok.w), g.rest, n + 1);
        var r := ParseRedirs(WithArg(cmd, g.tok.w), g.rest);
        if r.Ok? {
          ArgsFine(line, r.cmd, n + 1, r.rest);
        }
      }
    }
  }

  lemma {:induction false} ExecFine(line: string, s: string)
    requires Suffix(s, line)
    ensures Fine(line, ParseExec(s))
    decreases |s|, 1
  {
    hide Suffix, Peek, ParseRedirs, ParseArgs;
    SkipIn(s, line);
    if Peek(s, "(") {
      BlockFine(line, Skip(s));
    } else {
      RedirsFine(line, Exec([]), Skip(s), 0);
      var r := ParseRedirs(Exec([]), Skip(s));
      if r.Ok? {
        ArgsFine(line, r.cmd, 0, r.rest);
      }
    }
  }

  lemma {:induction false} BlockFine(line: string, s: string)
    requires Suffix(s, line)
    ensures Fine(line, ParseBlock(s))
    decreases |s|, 0
  {
    hide Suffix, ParseRedirs, ParseLine, GetToken;
    SkipIn(s, line);
    if Peek(s, "(") {
      TokenIn(Skip(s), line);
      OpensBlock(s);
      LineFine(line, GetToken(Skip(s)).rest);
      var r := ParseLine(GetToken(Skip(s)).rest);
      if r.Ok? && Peek(r.rest, ")") {
        SkipIn(r.rest, line);
        TokenIn(Skip(r.rest), line);
        RedirsFine(line, r.cmd, GetToken(Skip(r.rest)).rest, 0);
      }
    }
  }

  lemma OpensBlock(s: string)
    requires Skip(s) != "" && Symbol(Skip(s)[0])
    ensures |GetToken(Skip(s)).rest| < |s|
  {
    SkipFlush(Skip(s));
  }

  lemma {:induction false} PipeFine(line: string, s: string)
    requires Suffix(s, line)
    ensures Fine(line, ParsePipe(s))
    decreases |s|, 2
  {
    hide Suffix, ParseExec, GetToken;
    ExecFine(line, s);
    var l := ParseExec(s);
    if l.Ok? {
      SkipIn(l.rest, line);
      if Peek(l.rest, "|") {
        TokenIn(Skip(l.rest), line);
        OpensBlock(l.rest);
        PipeFine(line, GetToken(Skip(l.rest)).rest);
      }
    }
  }

  lemma {:induction false} BacksFine(line: string, cmd: Cmd, s: string)
    requires Suffix(s, line) && Placed(line, cmd)
    ensures Fine(line, ParseBacks(cmd, s))
    decreases |s|
  {
    hide Suffix, GetToken;
    SkipIn(s, line);
    if Peek(s, "&") {
      TokenIn(Skip(s), line);
      OpensBlock(s);
      BacksFine(line, Back(cmd), GetToken(Skip(s)).rest);
    }
  }

  lemma {:induction false} LineFine(line: string, s: string)
    requires Suffix(s, line)
    ensures Fine(line, ParseLine(s))
    decreases |s|, 3
  {
    hide Suffix, ParsePipe, ParseBacks, GetToken;
    PipeFine(line, s);
    var p := ParsePipe(s);
    if p.Ok? {
      BacksFine(line, p.cmd, p.rest);
      var b := ParseBacks(p.cmd, p.rest);
      SkipIn(b.rest, line);
      if Peek(b.rest, ";") {
        TokenIn(Skip(b.rest), line);
        OpensBlock(b.rest);
        LineFine(line, GetToken(Skip(b.rest)).rest);
      }
    }
  }

  /** Whatever the line, the words of a parsed command are maximal words of the line at their places. */
  lemma ParsedPlaced(line: string)
    ensures ParseCmd(line).Ok? ==> Placed(line, ParseCmd(line).cmd)
  {
    LineFine(line, line);
  }

  lemma {:induction false} PlacedWellFormed(line: string, cmd: Cmd)
    requires Placed(line, cmd)
    ensures WellFormed(TreeOf(cmd))
  {
    match cmd
    case Exec(args) =>
      forall i | 0 <= i < |args|
        ensures IsWord(Texts(args)[i])
      {
        assert WordAt(line, args[i]);
      }
    case Redir(sub, file, mode) => PlacedWellFormed(line, sub);
    case Pipe(l, r) => PlacedWellFormed(line, l); PlacedWellFormed(line, r);
    case List(l, r) => PlacedWellFormed(line, l); PlacedWellFormed(line, r);
    case Back(sub) => PlacedWellFormed(line, sub);
  }
}
