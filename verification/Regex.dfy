/**
  grep's pattern matcher against the languages that patterns denote.  A pattern is a
  sequence of characters, any of them starred, optionally anchored at either end.
 */
module Regex {

  /** A character, or any number of it; '.' stands for every character. */
  datatype Item = One(c: char) | Star(c: char)

  predicate Fits(c: char, x: char) {
    c == '.' || c == x
  }

  // ---------------------------------------------------------------- the language of a pattern

  /** The items of a pattern without '^'; a final '$' is no item. */
  function Items(re: string): (items: seq<Item>) {
    if re == "" || re == "$" then []
    else if |re| > 1 && re[1] == '*' then [Star(re[0])] + Items(re[2..])
    else [One(re[0])] + Items(re[1..])
  }

  /** The pattern ends in a '$' that is not starred. */
  predicate Anchored(re: string) {
    if re == "" then false
    else if re == "$" then true
    else if |re| > 1 && re[1] == '*' then Anchored(re[2..])
    else Anchored(re[1..])
  }

  ghost predicate InItem(it: Item, u: string) {
    match it
    case One(c) => |u| == 1 && Fits(c, u[0])
    case Star(c) => forall i :: 0 <= i < |u| ==> Fits(c, u[i])
  }

  /** The concatenation of the items' languages. */
  ghost predicate InLanguage(items: seq<Item>, s: string) {
    if items == [] then s == ""
    else exists k {:trigger s[..k]} :: 0 <= k <= |s| && InItem(items[0], s[..k]) && InLanguage(items[1..], s[k..])
  }

  /** text[i..j] is a match. */
  ghost predicate MatchAt(re: string, text: string, i: nat, j: nat) {
    i <= j <= |text| && InLanguage(Items(re), text[i..j]) && (Anchored(re) ==> j == |text|)
  }

  /** The pattern matches at the beginning of the text. */
  ghost predicate Here(re: string, text: string) {
    exists j :: MatchAt(re, text, 0, j)
  }

  /** The pattern matches somewhere, and after a '^' at the beginning. */
  ghost predicate Matches(re: string, text: string) {
    if re != "" && re[0] == '^' then Here(re[1..], text)
    else exists i, j :: MatchAt(re, text, i, j)
  }

  // ---------------------------------------------------------------- one item at a time

  lemma HereEmpty(text: string)
    ensures Here("", text)
  {
    assert MatchAt("", text, 0, 0);
  }

  lemma HereEnd(text: string)
    ensures Here("$", text) <==> text == ""
  {
    if text == "" {
      assert MatchAt("$", text, 0, 0);
    }
  }

  lemma LanguageCons(it: Item, rest: seq<Item>, s: string)
    ensures InLanguage([it] + rest, s) <==> exists k {:trigger s[..k]} :: 0 <= k <= |s| && InItem(it, s[..k]) && InLanguage(rest, s[k..])
  {
    assert ([it] + rest)[1..] == rest;
  }

  lemma HereOne(re: string, text: string)
    requires re != "" && re != "$" && !(|re| > 1 && re[1] == '*')
    ensures Here(re, text) <==> text != "" && Fits(re[0], text[0]) && Here(re[1..], text[1..])
  {
    hide InLanguage;
    var rest := re[1..];
    if Here(re, text) {
      var j: nat :| MatchAt(re, text, 0, j);
      var s := text[0..j];
      LanguageCons(One(re[0]), Items(rest), s);
      var k :| 0 <= k <= |s| && InItem(One(re[0]), s[..k]) && InLanguage(Items(rest), s[k..]);
      assert s[k..] == text[1..][0..j - 1];
      assert MatchAt(rest, text[1..], 0, j - 1);
    }
    if text != "" && Fits(re[0], text[0]) && Here(rest, text[1..]) {
      var j: nat :| MatchAt(rest, text[1..], 0, j);
      var s := text[0..j + 1];
      assert s[..1] == [text[0]] && s[1..] == text[1..][0..j];
      LanguageCons(One(re[0]), Items(rest), s);
      assert MatchAt(re, text, 0, j + 1);
    }
  }

  /** k characters that the starred one fits, and then the rest of the pattern. */
  ghost predicate StarAt(c: char, rest: string, text: string, k: nat) {
    k <= |text| && InItem(Star(c), text[..k]) && Here(rest, text[k..])
  }

  lemma HereStar(re: string, text: string)
    requires |re| > 1 && re[1] == '*'
    ensures Here(re, text) <==> exists k :: StarAt(re[0], re[2..], text, k)
  {
    hide InLanguage;
    var rest := re[2..];
    if Here(re, text) {
      var j: nat :| MatchAt(re, text, 0, j);
      var s := text[0..j];
      LanguageCons(Star(re[0]), Items(rest), s);
      var k :| 0 <= k <= |s| && InItem(Star(re[0]), s[..k]) && InLanguage(Items(rest), s[k..]);
      assert s[k..] == text[k..][0..j - k] && s[..k] == text[..k];
      assert MatchAt(rest, text[k..], 0, j - k);
      assert StarAt(re[0], rest, text, k);
    }
    if k: nat :| StarAt(re[0], rest, text, k) {
      var j: nat :| MatchAt(rest, text[k..], 0, j);
      var s := text[0..k + j];
      assert s[..k] == text[..k] && s[k..] == text[k..][0..j];
      LanguageCons(Star(re[0]), Items(rest), s);
      assert MatchAt(re, text, 0, k + j);
    }
  }

  // ---------------------------------------------------------------- the matcher

  /** matchhere */
  method MatchHere(re: string, text: string) returns (r: bool)
    ensures r <==> Here(re, text)
    decreases |re|, 0
  {
    if re == "" {
      HereEmpty(text);
      return true;
    }
    if |re| > 1 && re[1] == '*' {
      HereStar(re, text);
      r := MatchStar(re[0], re[2..], text);
      return;
    }
    if re[0] == '$' && |re| == 1 {
      assert re == "$";
      HereEnd(text);
      return text == "";
    }
    HereOne(re, text);
    if text != "" && (re[0] == '.' || re[0] == text[0]) {
      r := MatchHere(re[1..], text[1..]);
      return;
    }
    return false;
  }

  /** matchstar: some number of c, and then re. */
  method MatchStar(c: char, re: string, text: string) returns (r: bool)
    ensures r <==> exists k :: StarAt(c, re, text, k)
    decreases |re|, 1
  {
    var i := 0;
    while true
      invariant 0 <= i <= |text| && InItem(Star(c), text[..i])
      invariant forall k :: 0 <= k < i ==> !StarAt(c, re, text, k)
      decreases |text| - i
    {
      r := MatchHere(re, text[i..]);
      if r {
        assert StarAt(c, re, text, i);
        return true;
      }
      if i == |text| || !(text[i] == c || c == '.') {
        forall k: nat | i < k <= |text|
          ensures !InItem(Star(c), text[..k])
        {
          assert text[..k][i] == text[i];
        }
        return false;
      }
      i := i + 1;
    }
  }

  /** match */
  method Match(re: string, text: string) returns (r: bool)
    ensures r <==> Matches(re, text)
  {
    if re != "" && re[0] == '^' {
      r := MatchHere(re[1..], text);
      return;
    }
    var i := 0;
    while i <= |text|
      invariant 0 <= i <= |text| + 1
      invariant forall k, j :: 0 <= k < i ==> !MatchAt(re, text, k, j)
    {
      r := MatchHere(re, text[i..]);
      HereFrom(re, text, i);
      if r {
        return true;
      }
      i := i + 1;
    }
    return false;
  }

  lemma HereFrom(re: string, text: string, i: nat)
    requires i <= |text|
    ensures Here(re, text[i..]) <==> exists j :: MatchAt(re, text, i, j)
  {
    if j: nat :| MatchAt(re, text[i..], 0, j) {
      assert text[i..][0..j] == text[i..i + j];
      assert MatchAt(re, text, i, i + j);
    }
    if j: nat :| MatchAt(re, text, i, j) {
      assert text[i..][0..j - i] == text[i..j];
      assert MatchAt(re, text[i..], 0, j - i);
    }
  }
}
