/** The shell's parser over positions in a line, and the NULs that it writes into the line. */
module Shell {
  import opened ShellSpec
  import ShellGrammar

  /** gettoken's two loops over white space: the first position from p on without any. */
  method SkipSpace(line: string, p: nat) returns (s: nat)
    requires p <= |line|
    ensures p <= s <= |line| && line[s..] == Skip(line[p..])
  {
    s := p;
    while s < |line| && Space(line[s])
      invariant p <= s <= |line| && Skip(line[s..]) == Skip(line[p..])
    {
      assert line[s..][1..] == line[s + 1..];
      s := s + 1;
    }
  }

  /** gettoken; q and eq bound the token. */
  method NextToken(line: string, ps: nat) returns (tok: Token, q: nat, eq: nat, ps': nat)
    requires ps <= |line|
    ensures ps <= q <= eq <= ps' <= |line|
    ensures Got(tok, line[ps'..]) == GetToken(line[ps..])
    ensures tok.AWord? ==> tok.w == Word(line[q..eq], |line| - eq)
  {
    hide Skip, AfterWord, Space, Symbol;
    var s := SkipSpace(line, ps);
    q := s;
    ghost var r := line[s..];
    assert r == Skip(line[ps..]);
    if s == |line| {
      tok := End;
    } else if line[s] == '>' {
      s := s + 1;
      tok := Sym('>');
      assert r[1..] == line[s..] && (|r| > 1 ==> r[1] == line[s]);
      if s < |line| && line[s] == '>' {
        tok := Append;
        assert r[2..] == line[s + 1..];
        s := s + 1;
      }
    } else if Symbol(line[s]) {
      tok := Sym(line[s]);
      assert r[1..] == line[s + 1..];
      s := s + 1;
    } else {
      s := WordEnd(line, s);
      assert r[..s - q] == line[q..s];
      tok := AWord(Word(line[q..s], |line| - s));
    }
    eq := s;
    ps' := SkipSpace(line, s);
  }

  method WordEnd(line: string, p: nat) returns (s: nat)
    requires p <= |line|
    ensures p <= s <= |line| && line[s..] == AfterWord(line[p..])
  {
    s := p;
    while s < |line| && !Space(line[s]) && !Symbol(line[s])
      invariant p <= s <= |line| && AfterWord(line[s..]) == AfterWord(line[p..])
    {
      assert line[s..][1..] == line[s + 1..];
      s := s + 1;
    }
  }

  /** peek */
  method PeekAt(line: string, ps: nat, toks: string) returns (found: bool, ps': nat)
    requires ps <= |line|
    ensures ps <= ps' <= |line| && line[ps'..] == Skip(line[ps..]) && found == Peek(line[ps..], toks)
  {
    ps' := SkipSpace(line, ps);
    found := ps' < |line| && line[ps'] in toks;
  }

  /** A parse result as a position. */
  datatype Parsed = Panic | Done(cmd: Cmd, ps: nat)

  /** The result that the code reaches from position p is the one of the grammar. */
  ghost predicate Agrees(line: string, p: nat, r: Parsed, o: Outcome) {
    if r.Panic? then o.Fail? else p <= r.ps <= |line| && o == Ok(r.cmd, line[r.ps..])
  }

  method Redirs(cmd: Cmd, line: string, ps: nat) returns (r: Parsed)
    requires ps <= |line|
    ensures Agrees(line, ps, r, ParseRedirs(cmd, line[ps..]))
  {
    hide GetToken, Peek, Skip;
    var c, p := cmd, ps;
    while true
      invariant ps <= p <= |line| && ParseRedirs(cmd, line[ps..]) == ParseRedirs(c, line[p..])
      decreases |line| - p
    {
      var more, p1 := PeekAt(line, p, "<>");
      if !more {
        return Done(c, p1);
      }
      SkipTwice(line[p..]);
      var tok, q, eq, p2 := NextToken(line, p1);
      var file, p3;
      file, q, eq, p3 := NextToken(line, p2);
      if !file.AWord? {
        return Panic;
      }
      TokenShorter(line[p2..]);
      c := Redir(c, file.w, ModeOf(tok));
      p := p3;
    }
  }

  method Args(cmd: Cmd, line: string, ps: nat) returns (r: Parsed)
    requires ps <= |line|
    ensures Agrees(line, ps, r, ParseArgs(cmd, 0, line[ps..]))
  {
    hide GetToken, Peek, Skip, ParseRedirs, WithArg;
    var c, p, argc := cmd, ps, 0;
    while true
      invariant ps <= p <= |line| && ParseArgs(cmd, 0, line[ps..]) == ParseArgs(c, argc, line[p..])
      decreases |line| - p
    {
      var stop, p1 := PeekAt(line, p, "|)&;");
      if stop {
        return Done(c, p1);
      }
      var tok, q, eq, p2 := NextToken(line, p1);
      if tok.End? {
        return Done(c, p2);
      }
      if !tok.AWord? {
        return Panic;
      }
      TokenShorter(line[p1..]);
      c := WithArg(c, tok.w);
      argc := argc + 1;
      if argc >= MAXARGS {
        return Panic;
      }
      var d := Redirs(c, line, p2);
      if d.Panic? {
        return Panic;
      }
      c, p := d.cmd, d.ps;
    }
  }

  method ExecAt(line: string, ps: nat) returns (r: Parsed)
    requires ps <= |line|
    ensures Agrees(line, ps, r, ParseExec(line[ps..]))
    decreases |line| - ps, 1
  {
    hide Skip, ParseRedirs, ParseArgs, ParseBlock;
    var block, p := PeekAt(line, ps, "(");
    if block {
      r := BlockAt(line, p);
      return;
    }
    r := Redirs(Exec([]), line, p);
    if r.Panic? {
      return;
    }
    r := Args(r.cmd, line, r.ps);
  }

  method BlockAt(line: string, ps: nat) returns (r: Parsed)
    requires ps <= |line|
    ensures Agrees(line, ps, r, ParseBlock(line[ps..]))
    decreases |line| - ps, 0
  {
    hide GetToken, Skip, ParseRedirs, ParseLine;
    var open, p := PeekAt(line, ps, "(");
    if !open {
      return Panic;
    }
    OpensToken(line[ps..], "(");
    var tok, q, eq, p1 := NextToken(line, p);
    r := LineAt(line, p1);
    if r.Panic? {
      return;
    }
    var close, p2 := PeekAt(line, r.ps, ")");
    if !close {
      return Panic;
    }
    var p3;
    tok, q, eq, p3 := NextToken(line, p2);
    r := Redirs(r.cmd, line, p3);
  }

  method PipeAt(line: string, ps: nat) returns (r: Parsed)
    requires ps <= |line|
    ensures Agrees(line, ps, r, ParsePipe(line[ps..]))
    decreases |line| - ps, 2
  {
    hide GetToken, Skip, ParseExec, Peek;
    r := ExecAt(line, ps);
    if r.Panic? {
      return;
    }
    var left := r.cmd;
    var more, p := PeekAt(line, r.ps, "|");
    if !more {
      return Done(left, p);
    }
    OpensToken(line[r.ps..], "|");
    var tok, q, eq, p1 := NextToken(line, p);
    r := PipeAt(line, p1);
    if r.Panic? {
      return;
    }
    return Done(Pipe(left, r.cmd), r.ps);
  }

  /** parseline's loop over '&'. */
  method Backs(cmd: Cmd, line: string, ps: nat) returns (r: Parsed)
    requires ps <= |line|
    ensures Agrees(line, ps, r, ParseBacks(cmd, line[ps..]))
  {
    var c, p := cmd, ps;
    while true
      invariant ps <= p <= |line| && ParseBacks(cmd, line[ps..]) == ParseBacks(c, line[p..])
      decreases |line| - p
    {
      hide GetToken, Skip, Peek;
      var more, p1 := PeekAt(line, p, "&");
      if !more {
        return Done(c, p1);
      }
      OpensToken(line[p..], "&");
      var tok, q, eq, p2 := NextToken(line, p1);
      c, p := Back(c), p2;
    }
  }

  method LineAt(line: string, ps: nat) returns (r: Parsed)
    requires ps <= |line|
    ensures Agrees(line, ps, r, ParseLine(line[ps..]))
    decreases |line| - ps, 3
  {
    hide GetToken, Skip, ParsePipe, ParseBacks, Peek;
    r := PipeAt(line, ps);
    if r.Panic? {
      return;
    }
    r := Backs(r.cmd, line, r.ps);
    if r.Panic? {
      return;
    }
    var left := r.cmd;
    var more, p := PeekAt(line, r.ps, ";");
    if !more {
      return Done(left, p);
    }
    OpensToken(line[r.ps..], ";");
    var tok, q, eq, p1 := NextToken(line, p);
    r := LineAt(line, p1);
    if r.Panic? {
      return;
    }
    return Done(List(left, r.cmd), r.ps);
  }

  lemma SkipTwice(s: string)
    ensures Skip(Skip(s)) == Skip(s)
  {
  }

  lemma TokenShorter(s: string)
    ensures GetToken(s).tok != End ==> |GetToken(s).rest| < |s|
  {
  }

  /** A symbol that peek found is consumed by the next gettoken. */
  lemma OpensToken(s: string, toks: string)
    requires Peek(s, toks) && forall c :: c in toks ==> Symbol(c)
    ensures |GetToken(Skip(s)).rest| < |s|
  {
    OpensBlock(s);
  }

  // ---------------------------------------------------------------- nulterminate

  /** The string that C sees at position p. */
  function CString(b: seq<char>, p: nat): (s: string)
    requires p <= |b|
    decreases |b| - p
  {
    if p == |b| || b[p] == '\0' then "" else [b[p]] + CString(b, p + 1)
  }

  /** The buffer still holds every word of the line; only other characters may have become NUL. */
  ghost predicate Keeps(b: seq<char>, line: string) {
    |b| == |line| + 1 && forall i :: 0 <= i < |line| && WordChar(line[i]) ==> b[i] == line[i]
  }

  /** There is a NUL after the word. */
  ghost predicate EndsIn(b: seq<char>, w: Word) {
    w.left < |b| && b[|b| - 1 - w.left] == '\0'
  }

  ghost predicate AllEnd(b: seq<char>, cmd: Cmd) {
    match cmd
    case Exec(args) => forall i :: 0 <= i < |args| ==> EndsIn(b, args[i])
    case Redir(sub, file, mode) => AllEnd(b, sub) && EndsIn(b, file)
    case Pipe(l, r) => AllEnd(b, l) && AllEnd(b, r)
    case List(l, r) => AllEnd(b, l) && AllEnd(b, r)
    case Back(sub) => AllEnd(b, sub)
  }

  ghost predicate MoreNuls(b: seq<char>, b': seq<char>) {
    |b'| == |b| && forall i :: 0 <= i < |b| && b[i] == '\0' ==> b'[i] == '\0'
  }

  lemma {:induction false} AllEndStays(b: seq<char>, b': seq<char>, cmd: Cmd)
    requires AllEnd(b, cmd) && MoreNuls(b, b')
    ensures AllEnd(b', cmd)
  {
    match cmd
    case Exec(args) =>
      forall i | 0 <= i < |args|
        ensures EndsIn(b', args[i])
      {
        assert EndsIn(b, args[i]);
      }
    case Redir(sub, file, mode) => AllEndStays(b, b', sub);
    case Pipe(l, r) => AllEndStays(b, b', l); AllEndStays(b, b', r);
    case List(l, r) => AllEndStays(b, b', l); AllEndStays(b, b', r);
    case Back(sub) => AllEndStays(b, b', sub);
  }

  /** *eq = 0: the end of a word is never inside a word. */
  method PutNul(buf: array<char>, w: Word, ghost line: string)
    requires Keeps(buf[..], line) && WordAt(line, w) && w.left < buf.Length
    modifies buf
    ensures Keeps(buf[..], line) && EndsIn(buf[..], w) && MoreNuls(old(buf[..]), buf[..])
  {
    buf[buf.Length - 1 - w.left] := '\0';
  }

  /** nulterminate */
  method Nulterminate(buf: array<char>, cmd: Cmd, ghost line: string)
    requires Keeps(buf[..], line) && Placed(line, cmd)
    modifies buf
    ensures Keeps(buf[..], line) && AllEnd(buf[..], cmd) && MoreNuls(old(buf[..]), buf[..])
    decreases cmd
  {
    hide WordAt, Keeps;
    match cmd {
      case Exec(args) => TerminateArgs(buf, args, line);
      case Redir(sub, file, mode) =>
        Nulterminate(buf, sub, line);
        ghost var b := buf[..];
        WordInside(buf[..], file, line);
        PutNul(buf, file, line);
        AllEndStays(b, buf[..], sub);
      case Pipe(l, r) =>
        Nulterminate(buf, l, line);
        ghost var b := buf[..];
        Nulterminate(buf, r, line);
        AllEndStays(b, buf[..], l);
      case List(l, r) =>
        Nulterminate(buf, l, line);
        ghost var b := buf[..];
        Nulterminate(buf, r, line);
        AllEndStays(b, buf[..], l);
      case Back(sub) => Nulterminate(buf, sub, line);
    }
  }

  method TerminateArgs(buf: array<char>, args: seq<Word>, ghost line: string)
    requires Keeps(buf[..], line) && forall i :: 0 <= i < |args| ==> WordAt(line, args[i])
    modifies buf
    ensures Keeps(buf[..], line) && (forall i :: 0 <= i < |args| ==> EndsIn(buf[..], args[i])) && MoreNuls(old(buf[..]), buf[..])
  {
    hide WordAt, Keeps;
    for i := 0 to |args|
      invariant Keeps(buf[..], line) && (forall j :: 0 <= j < i ==> EndsIn(buf[..], args[j])) && MoreNuls(old(buf[..]), buf[..])
    {
      ghost var b := buf[..];
      WordInside(buf[..], args[i], line);
      PutNul(buf, args[i], line);
      forall j | 0 <= j < i
        ensures EndsIn(buf[..], args[j])
      {
        assert EndsIn(b, args[j]);
      }
    }
  }

  lemma WordInside(b: seq<char>, w: Word, line: string)
    requires Keeps(b, line) && WordAt(line, w)
    ensures w.left < |b|
  {
  }

  /** The string at a word's place is the word. */
  ghost predicate Reads(b: seq<char>, w: Word) {
    w.left + |w.text| < |b| && CString(b, |b| - 1 - w.left - |w.text|) == w.text
  }

  ghost predicate AllRead(b: seq<char>, cmd: Cmd) {
    match cmd
    case Exec(args) => forall i :: 0 <= i < |args| ==> Reads(b, args[i])
    case Redir(sub, file, mode) => AllRead(b, sub) && Reads(b, file)
    case Pipe(l, r) => AllRead(b, l) && AllRead(b, r)
    case List(l, r) => AllRead(b, l) && AllRead(b, r)
    case Back(sub) => AllRead(b, sub)
  }

  lemma {:induction false} CStringIs(b: seq<char>, p: nat, s: string)
    requires p + |s| < |b| && b[p..p + |s|] == s && b[p + |s|] == '\0' && '\0' !in s
    ensures CString(b, p) == s
    decreases |s|
  {
    if s != "" {
      assert b[p] == s[0] && s[0] in s;
      assert b[p + 1..p + |s|] == s[1..];
      CStringIs(b, p + 1, s[1..]);
    }
  }

  lemma WordCharAt(b: seq<char>, line: string, w: Word, p: nat, i: nat)
    requires Keeps(b, line) && WordAt(line, w) && p == |line| - w.left - |w.text| && i < |w.text|
    ensures p + |w.text| <= |line| < |b| && b[p + i] == w.text[i] && w.text[i] in line
  {
    hide WordChar, IsWord;
    assert line[p..p + |w.text|][i] == line[p + i];
    assert line[p + i] in line && WordChar(line[p + i]) by { WordIs(line, w, i); }
  }

  lemma WordIs(line: string, w: Word, i: nat)
    requires WordAt(line, w) && i < |w.text|
    ensures WordChar(w.text[i])
  {
  }

  lemma WordReads(b: seq<char>, line: string, w: Word)
    requires Keeps(b, line) && WordAt(line, w) && EndsIn(b, w) && '\0' !in line
    ensures Reads(b, w)
  {
    hide WordChar, CString;
    var p := |line| - w.left - |w.text|;
    WordInside(b, w, line);
    forall i | 0 <= i < |w.text|
      ensures b[p + i] == w.text[i] && w.text[i] in line
    {
      WordCharAt(b, line, w, p, i);
    }
    assert b[p..p + |w.text|] == w.text;
    CStringIs(b, p, w.text);
  }

  lemma {:induction false} AllWordsRead(b: seq<char>, line: string, cmd: Cmd)
    requires Keeps(b, line) && Placed(line, cmd) && AllEnd(b, cmd) && '\0' !in line
    ensures AllRead(b, cmd)
  {
    match cmd
    case Exec(args) =>
      forall i | 0 <= i < |args|
        ensures Reads(b, args[i])
      {
        WordReads(b, line, args[i]);
      }
    case Redir(sub, file, mode) =>
      AllWordsRead(b, line, sub);
      WordReads(b, line, file);
    case Pipe(l, r) => AllWordsRead(b, line, l); AllWordsRead(b, line, r);
    case List(l, r) => AllWordsRead(b, line, l); AllWordsRead(b, line, r);
    case Back(sub) => AllWordsRead(b, line, sub);
  }

  /**
    parsecmd on a NUL-terminated line.  It panics exactly when the grammar rejects the line;
    else every argument and file name of the command reads, in the buffer as it then is, as
    the word that it was parsed from.
   */
  method ParseCommand(buf: array<char>) returns (r: Parsed)
    requires buf.Length > 0 && buf[buf.Length - 1] == '\0' && '\0' !in buf[..buf.Length - 1]
    modifies buf
    ensures r.Panic? <==> ParseCmd(old(buf[..buf.Length - 1])).Fail?
    ensures r.Done? ==> r.cmd == ParseCmd(old(buf[..buf.Length - 1])).cmd && AllRead(buf[..], r.cmd)
    ensures r.Panic? <==> !ShellGrammar.Derivable(old(buf[..buf.Length - 1]))
    ensures r.Done? ==> ShellGrammar.StandsFor(old(buf[..buf.Length - 1]), TreeOf(r.cmd))
  {
    hide ParseLine, Placed, AllRead, WordAt, ShellGrammar.Derivable, ShellGrammar.StandsFor;
    var line := buf[..buf.Length - 1];
    assert line[0..] == line;
    ShellGrammar.AcceptsExactly(line);
    r := LineAt(line, 0);
    if r.Panic? {
      return;
    }
    var found, p := PeekAt(line, r.ps, "");
    if p != |line| {
      return Panic;
    }
    assert line[p..] == "";
    ParsedPlaced(line);
    Nulterminate(buf, r.cmd, line);
    AllWordsRead(buf[..], line, r.cmd);
  }
}
