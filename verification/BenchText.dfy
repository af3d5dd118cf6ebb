/** The lines of a configuration file as text: comments cut off, the rest split into tokens. */
module BenchText {
  import opened Wire
  import opened Bench

  /** A line up to its comment. */
  function UpToHash(line: string): string {
    if line == "" || line[0] == '#' then "" else [line[0]] + UpToHash(line[1..])
  }

  /** The position of the first blank, or the length. */
  function WordEnd(s: string): (n: nat)
    ensures n <= |s|
    ensures s != "" && !Blank(s[0]) ==> n > 0
    ensures forall i | 0 <= i < n :: !Blank(s[i])
    ensures n < |s| ==> Blank(s[n])
  {
    if s == "" || Blank(s[0]) then 0 else 1 + WordEnd(s[1..])
  }

  function Words(s: string): seq<string>
    decreases |s|
  {
    if s == "" then []
    else if Blank(s[0]) then Words(s[1..])
    else [s[..WordEnd(s)]] + Words(s[WordEnd(s)..])
  }

  function TokensOf(line: string): seq<string> { Words(UpToHash(line)) }

  function TextLines(text: seq<string>): (lines: seq<seq<string>>)
    ensures |lines| == |text| && forall k | 0 <= k < |text| :: lines[k] == TokensOf(text[k])
  {
    seq(|text|, k requires 0 <= k < |text| => TokensOf(text[k]))
  }

  /** `loadConfigFile`, on the lines of the file. */
  function LoadText(lex: Lex, text: seq<string>): Option<Hub> { Load(lex, TextLines(text)) }

  predicate NoHash(s: string) { forall i | 0 <= i < |s| :: s[i] != '#' }

  lemma {:induction false} UpToHashHasNone(line: string)
    ensures NoHash(UpToHash(line))
  {
    if line != "" && line[0] != '#' { UpToHashHasNone(line[1..]); }
  }

  lemma {:induction false} WordsAreTokens(s: string)
    requires NoHash(s)
    ensures AllTokens(Words(s))
    decreases |s|
  {
    if s != "" {
      if Blank(s[0]) {
        WordsAreTokens(s[1..]);
      } else {
        WordsAreTokens(s[WordEnd(s)..]);
      }
    }
  }

  /** Whatever the text, its lines are lines of tokens. */
  lemma TextGivesTokens(text: seq<string>)
    ensures TokenLines(TextLines(text))
  {
    hide AllTokens;
    forall k | 0 <= k < |text| ensures AllTokens(TokensOf(text[k])) {
      UpToHashHasNone(text[k]);
      WordsAreTokens(UpToHash(text[k]));
    }
  }

  // ---- how a line is split ------------------------------------------------------------------

  /** A comment is as good as the end of the line. */
  lemma {:induction false} CommentIgnored(s: string, comment: string)
    requires NoHash(s)
    ensures UpToHash(s + "#" + comment) == s && TokensOf(s + "#" + comment) == Words(s)
  {
    var line := s + "#" + comment;
    if s == "" {
      assert line[0] == '#';
    } else {
      assert line[1..] == s[1..] + "#" + comment;
      CommentIgnored(s[1..], comment);
    }
  }

  lemma WordIsWhole(s: string)
    requires s != "" && forall i | 0 <= i < |s| :: !Blank(s[i])
    ensures Words(s) == [s]
  {
    assert WordEnd(s) == |s|;
    assert s[..|s|] == s && s[|s|..] == "";
  }

  /** A blank, of whatever kind, separates: a line is split into the words before it and the words after it. */
  lemma {:induction false} BlankSeparates(a: string, b: char, c: string)
    requires Blank(b)
    ensures Words(a + [b] + c) == Words(a) + Words(c)
    decreases |a|
  {
    var s := a + [b] + c;
    if a == "" {
      assert s[1..] == c;
    } else if Blank(a[0]) {
      assert s[1..] == a[1..] + [b] + c;
      BlankSeparates(a[1..], b, c);
    } else {
      var n := WordEnd(a);
      EndBefore(a, b, c);
      assert s[..n] == a[..n];
      assert s[n..] == a[n..] + [b] + c;
      BlankSeparates(a[n..], b, c);
      Regroup([a[..n]], Words(a[n..]), Words(c));
    }
  }

  lemma EndBefore(a: string, b: char, c: string)
    requires Blank(b)
    ensures WordEnd(a + [b] + c) == WordEnd(a)
  {
    var s, n := a + [b] + c, WordEnd(a);
    assert forall i | 0 <= i < n :: s[i] == a[i];
    assert Blank(s[n]);
    WordEndIs(s, n);
  }

  // ---- writing a line ----------------------------------------------------------------------

  /** Tokens with a blank after each. */
  function Spaced(tok: seq<string>): string {
    if tok == [] then "" else tok[0] + " " + Spaced(tok[1..])
  }

  lemma {:induction false} SpacedPlain(tok: seq<string>)
    requires AllTokens(tok)
    ensures NoHash(Spaced(tok)) && '\n' !in Spaced(tok)
  {
    if tok != [] { SpacedPlain(tok[1..]); }
  }

  lemma {:induction false} UpToHashKeeps(s: string)
    requires NoHash(s)
    ensures UpToHash(s) == s
  {
    if s != "" { UpToHashKeeps(s[1..]); }
  }

  lemma {:induction false} WordEndIs(s: string, n: nat)
    requires n < |s| && Blank(s[n]) && forall i | 0 <= i < n :: !Blank(s[i])
    ensures WordEnd(s) == n
  {
    if n > 0 { WordEndIs(s[1..], n - 1); }
  }

  lemma {:induction false} WordsSpaced(tok: seq<string>)
    requires AllTokens(tok)
    ensures Words(Spaced(tok)) == tok
  {
    if tok != [] {
      WordsSpaced(tok[1..]);
      FirstWord(tok[0], Spaced(tok[1..]));
      assert [tok[0]] + tok[1..] == tok;
    }
  }

  lemma FirstWord(t: string, rest: string)
    requires Token(t)
    ensures Words(t + " " + rest) == [t] + Words(rest)
  {
    var s := t + " " + rest;
    assert s[0] == t[0] && s[|t|] == ' ';
    WordEndIs(s, |t|);
    assert s[..|t|] == t;
    assert s[|t|..][1..] == rest;
  }

  /** A written line is split into the tokens it was written from. */
  lemma TokensBack(tok: seq<string>)
    requires AllTokens(tok)
    ensures TokensOf(Spaced(tok)) == tok
  {
    SpacedPlain(tok);
    UpToHashKeeps(Spaced(tok));
    WordsSpaced(tok);
  }

  function Written(lines: seq<seq<string>>): (text: seq<string>)
    ensures |text| == |lines| && forall k | 0 <= k < |lines| :: text[k] == Spaced(lines[k])
  {
    seq(|lines|, k requires 0 <= k < |lines| => Spaced(lines[k]))
  }

  lemma WrittenBack(lines: seq<seq<string>>)
    requires TokenLines(lines)
    ensures TextLines(Written(lines)) == lines
    ensures forall k | 0 <= k < |lines| :: '\n' !in Written(lines)[k]
  {
    hide AllTokens, Spaced;
    forall k | 0 <= k < |lines| ensures TokensOf(Spaced(lines[k])) == lines[k] && '\n' !in Spaced(lines[k]) {
      TokensBack(lines[k]);
      SpacedPlain(lines[k]);
    }
  }

  // ---- the splitter itself --------------------------------------------------------------------

  method CutComment(line: string) returns (s: string)
    ensures s == UpToHash(line)
  {
    var n := 0;
    while n < |line| && line[n] != '#'
      invariant n <= |line| && UpToHash(line) == line[..n] + UpToHash(line[n..])
    {
      assert line[n..][1..] == line[n + 1..];
      Regroup(line[..n], [line[n]], UpToHash(line[n + 1..]));
      assert line[..n] + [line[n]] == line[..n + 1];
      n := n + 1;
    }
    s := line[..n];
    assert s + [] == s;
  }

  method Tokenize(line: string) returns (tok: seq<string>)
    ensures tok == TokensOf(line)
  {
    var s := CutComment(line);
    tok := [];
    var i := 0;
    assert s[0..] == s;
    while i < |s|
      invariant i <= |s| && Words(s) == tok + Words(s[i..])
    {
      if Blank(s[i]) {
        assert s[i..][1..] == s[i + 1..];
        i := i + 1;
      } else {
        var end := FindBlank(s, i);
        NextWord(s, i, end);
        Regroup(tok, [s[i..end]], Words(s[end..]));
        tok := tok + [s[i..end]];
        i := end;
      }
    }
    assert tok + [] == tok;
  }

  lemma NextWord(s: string, i: nat, end: nat)
    requires i < |s| && !Blank(s[i]) && end == i + WordEnd(s[i..])
    ensures Words(s[i..]) == [s[i..end]] + Words(s[end..])
  {
    assert s[i..][..end - i] == s[i..end];
    assert s[i..][end - i..] == s[end..];
  }

  method FindBlank(s: string, i: nat) returns (end: nat)
    requires i < |s| && !Blank(s[i])
    ensures i < end <= |s| && end == i + WordEnd(s[i..])
  {
    end := i;
    while end < |s| && !Blank(s[end])
      invariant i <= end <= |s| && WordEnd(s[i..]) == end - i + WordEnd(s[end..])
    {
      assert s[end..][1..] == s[end + 1..];
      end := end + 1;
    }
  }
}
