/** grep's loop over its input: which lines it prints, however the reads split the input. */
module Grep {
  import opened Regex

  const BUFSIZE := 1024

  /** strchr(s, '\n'), as an index; |s| if there is none. */
  function Newline(s: string): (i: nat)
    ensures i <= |s| && (i < |s| ==> s[i] == '\n') && forall k :: 0 <= k < i ==> s[k] != '\n'
  {
    if s == "" || s[0] == '\n' then 0 else 1 + Newline(s[1..])
  }

  /** The lines of a text; what follows the last newline is none. */
  ghost function Lines(s: string): (ls: seq<string>) {
    var i := Newline(s);
    if i == |s| then [] else [s[..i]] + Lines(s[i + 1..])
  }

  /** What grep should print of some lines. */
  ghost function Selected(re: string, ls: seq<string>): (out: string) {
    if ls == [] then ""
    else
      var last := ls[|ls| - 1];
      Selected(re, ls[..|ls| - 1]) + if Matches(re, last) then last + "\n" else ""
  }

  /** The line fits into the buffer with its newline. */
  predicate Short(line: string) {
    |line| < BUFSIZE - 1
  }

  /** The lines before the first one that does not fit. */
  ghost function Reached(ls: seq<string>): (r: seq<string>) {
    if ls == [] || !Short(ls[0]) then [] else [ls[0]] + Reached(ls[1..])
  }

  lemma {:induction false} ReachedPrefix(done: seq<string>, more: seq<string>)
    requires forall k :: 0 <= k < |done| ==> Short(done[k])
    ensures Reached(done + more) == done + Reached(more)
  {
    if done == [] {
      assert done + more == more;
    } else {
      ReachedPrefix(done[1..], more);
      assert (done + more)[1..] == done[1..] + more;
    }
  }

  lemma NewlineOf(a: string, b: string)
    ensures Newline(a) < |a| ==> Newline(a + b) == Newline(a)
    ensures Newline(a) == |a| ==> Newline(a + b) >= |a|
  {
    var i, k := Newline(a), Newline(a + b);
    assert forall x :: 0 <= x < |a| ==> (a + b)[x] == a[x];
    if i < |a| {
      assert (a + b)[i] == '\n';
    }
  }

  /** The first line of a buffer, whatever follows the buffer. */
  lemma FirstLine(buf: string, tail: string)
    requires Newline(buf) < |buf|
    ensures Lines(buf + tail) == [buf[..Newline(buf)]] + Lines(buf[Newline(buf) + 1..] + tail)
  {
    NewlineOf(buf, tail);
    var i := Newline(buf);
    assert (buf + tail)[..i] == buf[..i];
    assert (buf + tail)[i + 1..] == buf[i + 1..] + tail;
  }

  /** grep's inner loop: print the matching lines of the buffer and keep what follows the last newline. */
  method PrintLines(re: string, buf: string, ghost tail: string, ghost done: seq<string>)
    returns (out: string, rest: string, ghost done': seq<string>)
    requires |buf| < BUFSIZE && forall k :: 0 <= k < |done| ==> Short(done[k])
    ensures done + Lines(buf + tail) == done' + Lines(rest + tail) && |rest| <= |buf| && Newline(rest) == |rest|
    ensures forall k :: 0 <= k < |done'| ==> Short(done'[k])
    ensures Selected(re, done') == Selected(re, done) + out
  {
    hide Lines, Matches, Selected, Newline;
    out, rest, done' := "", buf, done;
    var q := Newline(rest);
    while q < |rest|
      invariant |rest| <= |buf| && q == Newline(rest) && done + Lines(buf + tail) == done' + Lines(rest + tail)
      invariant forall k :: 0 <= k < |done'| ==> Short(done'[k])
      invariant Selected(re, done') == Selected(re, done) + out
      decreases |rest|
    {
      var line := rest[..q];
      FirstLine(rest, tail);
      var hit := Match(re, line);
      Grown(re, done', line);
      Regrouped(done', line, Lines(rest[q + 1..] + tail));
      done' := done' + [line];
      if hit {
        assert Selected(re, done) + (out + (line + "\n")) == (Selected(re, done) + out) + (line + "\n");
        out := out + (line + "\n");
      }
      rest := rest[q + 1..];
      q := Newline(rest);
    }
  }

  lemma Regrouped(done: seq<string>, line: string, more: seq<string>)
    ensures done + ([line] + more) == (done + [line]) + more
  {
  }

  lemma Grown(re: string, done: seq<string>, line: string)
    ensures Selected(re, done + [line]) == Selected(re, done) + if Matches(re, line) then line + "\n" else ""
  {
    assert (done + [line])[..|done|] == done;
  }

  /**
    grep on one input, each read returning any number of bytes that it may.  It prints the
    matching lines before the first line that does not fit its buffer, and so, if all lines
    fit, all matching lines, whatever the reads were.
   */
  method Run(re: string, input: string) returns (out: string)
    ensures out == Selected(re, Reached(Lines(input)))
    ensures (forall k :: 0 <= k < |Lines(input)| ==> Short(Lines(input)[k])) ==> out == Selected(re, Lines(input))
  {
    hide Lines, Selected, Matches, Newline;
    out := "";
    var buf, pos := "", 0;
    ghost var done: seq<string> := [];
    Nothing(re, input);
    while |buf| < BUFSIZE - 1 && pos < |input|
      invariant 0 <= pos <= |input| && |buf| < BUFSIZE && Newline(buf) == |buf|
      invariant Lines(input) == done + Lines(buf + input[pos..]) && out == Selected(re, done)
      invariant forall k :: 0 <= k < |done| ==> Short(done[k])
      decreases |input| - pos
    {
      var room := if |input| - pos < BUFSIZE - 1 - |buf| then |input| - pos else BUFSIZE - 1 - |buf|;
      var n :| 0 < n <= room;
      assert buf + input[pos..] == (buf + input[pos..pos + n]) + input[pos + n..];
      buf := buf + input[pos..pos + n];
      pos := pos + n;
      var printed;
      printed, buf, done := PrintLines(re, buf, input[pos..], done);
      out := out + printed;
    }
    LastLines(buf, input[pos..]);
    ReachedPrefix(done, Lines(buf + input[pos..]));
    assert done + [] == done;
    if forall k :: 0 <= k < |Lines(input)| ==> Short(Lines(input)[k]) {
      ReachedPrefix(Lines(input), []);
      assert Lines(input) + [] == Lines(input);
    }
  }

  lemma Nothing(re: string, input: string)
    ensures Newline("") == 0 && Selected(re, []) == "" && [] + Lines("" + input[0..]) == Lines(input)
  {
    assert "" + input[0..] == input;
  }

  /** A full buffer without a newline begins a line that does not fit; one at the end of the input holds no line. */
  lemma LastLines(buf: string, tail: string)
    requires Newline(buf) == |buf| && (|buf| >= BUFSIZE - 1 || tail == "")
    ensures Reached(Lines(buf + tail)) == []
  {
    NewlineOf(buf, tail);
  }
}
