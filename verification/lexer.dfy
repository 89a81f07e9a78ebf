/** The comment and string stripper of the hard-coding scan for C-like code: it must keep line numbers. */
module Lexer {

  predicate IsQuote(c: char, templates: bool) {
    c == '"' || c == '\'' || (templates && c == '`')
  }

  predicate Starts(s: string, a: char, b: char) {
    |s| >= 2 && s[0] == a && s[1] == b
  }

  /** find('\n'): its index, or the length. */
  function NewlineAt(s: string): (k: nat)
    ensures k <= |s|
  {
    if s == [] || s[0] == '\n' then 0 else 1 + NewlineAt(s[1..])
  }

  /** The index behind the first end of a block comment, or the length. */
  function BehindClose(s: string): (k: nat)
    ensures k <= |s|
  {
    if |s| < 2 then |s| else if Starts(s, '*', '/') then 2 else 1 + BehindClose(s[1..])
  }

  /** The index of the closing quote; a backslash hides the next character.  Without one: the length, or one more. */
  function QuoteAt(s: string, q: char): (k: nat)
    ensures k <= |s| + 1
  {
    if s == [] || s[0] == q then 0
    else if s[0] != '\\' then 1 + QuoteAt(s[1..], q)
    else if |s| == 1 then 2
    else 2 + QuoteAt(s[2..], q)
  }

  /** '\n' * count('\n'). */
  function Newlines(s: string): string {
    if s == [] then [] else (if s[0] == '\n' then ['\n'] else []) + Newlines(s[1..])
  }

  function AtMost(a: nat, b: nat): nat {
    if a > b then b else a
  }

  /** What the loop appends for the rest s of the text. */
  function Strip(s: string, templates: bool): string
    decreases |s|
  {
    if s == [] then []
    else if Starts(s, '/', '/') then
      var j := 2 + NewlineAt(s[2..]);
      Strip(s[j..], templates)
    else if Starts(s, '/', '*') then
      var j := 2 + BehindClose(s[2..]);
      Newlines(s[..j]) + Strip(s[j..], templates)
    else if IsQuote(s[0], templates) then
      var j := 1 + QuoteAt(s[1..], s[0]);
      Newlines(s[..AtMost(j, |s|)]) + Strip(s[AtMost(j + 1, |s|)..], templates)
    else [s[0]] + Strip(s[1..], templates)
  }

  /** split('\n'). */
  function Lines(s: string): (r: seq<string>)
    ensures |r| >= 1
  {
    if s == [] then [[]]
    else
      var rest := Lines(s[1..]);
      if s[0] == '\n' then [[]] + rest else [[s[0]] + rest[0]] + rest[1..]
  }

  /** The position behind the string that starts at i: the inner loop. */
  method StringEnd(text: string, i: nat) returns (j: nat)
    requires i < |text|
    ensures j == i + 1 + QuoteAt(text[i + 1..], text[i])
  {
    var c, n := text[i], |text|;
    j := i + 1;
    while j < n && text[j] != c
      invariant i + 1 <= j <= n + 1
      invariant i + 1 + QuoteAt(text[i + 1..], c) == if j > n then j else j + QuoteAt(text[j..], c)
    {
      assert text[j..][1..] == text[j + 1..];
      assert j + 2 <= n ==> text[j..][2..] == text[j + 2..];
      j := j + if text[j] == '\\' then 2 else 1;
    }
  }

  lemma StripLineComment(text: string, i: nat, templates: bool)
    requires i < |text| && Starts(text[i..], '/', '/')
    ensures Strip(text[i..], templates) == Strip(text[i + 2 + NewlineAt(text[i..][2..])..], templates)
  {
    hide QuoteAt, Newlines, NewlineAt, BehindClose;
    var j := 2 + NewlineAt(text[i..][2..]);
    assert text[i..][j..] == text[i + j..];
  }

  lemma StripBlockComment(text: string, i: nat, templates: bool)
    requires i < |text| && Starts(text[i..], '/', '*')
    ensures var j := i + 2 + BehindClose(text[i..][2..]);
      Strip(text[i..], templates) == Newlines(text[i..j]) + Strip(text[j..], templates)
  {
    var j := 2 + BehindClose(text[i..][2..]);
    assert text[i..][j..] == text[i + j..] && text[i..][..j] == text[i..i + j];
  }

  lemma StripQuoted(s: string, templates: bool)
    requires s != [] && IsQuote(s[0], templates)
    ensures var j := 1 + QuoteAt(s[1..], s[0]);
      Strip(s, templates) == Newlines(s[..AtMost(j, |s|)]) + Strip(s[AtMost(j + 1, |s|)..], templates)
  {
    hide QuoteAt, Newlines, NewlineAt, BehindClose;
  }

  lemma StripString(text: string, i: nat, templates: bool)
    requires i < |text| && IsQuote(text[i], templates)
    ensures var j := i + 1 + QuoteAt(text[i + 1..], text[i]);
      Strip(text[i..], templates) == Newlines(text[i..AtMost(j, |text|)]) + Strip(text[AtMost(j + 1, |text|)..], templates)
  {
    hide QuoteAt, Newlines, Strip;
    var rest := text[i..];
    StripQuoted(rest, templates);
    assert rest[1..] == text[i + 1..];
    var j := 1 + QuoteAt(rest[1..], text[i]);
    var stop, next := AtMost(j, |rest|), AtMost(j + 1, |rest|);
    assert rest[..stop] == text[i..i + stop] && rest[next..] == text[i + next..];
  }

  lemma StripOther(text: string, i: nat, templates: bool)
    requires i < |text| && !Starts(text[i..], '/', '/') && !Starts(text[i..], '/', '*') && !IsQuote(text[i], templates)
    ensures Strip(text[i..], templates) == [text[i]] + Strip(text[i + 1..], templates)
  {
    assert text[i..][1..] == text[i + 1..];
  }

  lemma Associate(a: string, b: string, c: string)
    ensures a + (b + c) == (a + b) + c
  {
  }

  /** _c_like_code_lines: the code of each line. */
  method CodeLines(text: string, templates: bool) returns (lines: seq<string>)
    ensures lines == Lines(Strip(text, templates))
  {
    hide Strip, NewlineAt, BehindClose, QuoteAt, Newlines, Lines, IsQuote;
    var res: string := [];
    var i, n := 0, |text|;
    assert text[0..] == text && [] + Strip(text, templates) == Strip(text, templates);
    while i < n
      invariant 0 <= i <= n && res + Strip(text[i..], templates) == Strip(text, templates)
    {
      if Starts(text[i..], '/', '/') {
        StripLineComment(text, i, templates);
        i := i + 2 + NewlineAt(text[i..][2..]);
      } else if Starts(text[i..], '/', '*') {
        var j := i + 2 + BehindClose(text[i..][2..]);
        StripBlockComment(text, i, templates);
        Associate(res, Newlines(text[i..j]), Strip(text[j..], templates));
        res := res + Newlines(text[i..j]);
        i := j;
      } else if IsQuote(text[i], templates) {
        var j := StringEnd(text, i);
        StripString(text, i, templates);
        Associate(res, Newlines(text[i..AtMost(j, n)]), Strip(text[AtMost(j + 1, n)..], templates));
        res := res + Newlines(text[i..AtMost(j, n)]);
        i := AtMost(j + 1, n);
      } else {
        StripOther(text, i, templates);
        Associate(res, [text[i]], Strip(text[i + 1..], templates));
        res := res + [text[i]];
        i := i + 1;
      }
    }
    StripEmpty(templates);
    assert text[i..] == [] && res + [] == res;
    lines := Lines(res);
  }

  lemma StripEmpty(templates: bool)
    ensures Strip([], templates) == []
  {
  }

  // ----- lines are kept

  /** o is s with some characters, but no newline, left out. */
  predicate Thinned(s: string, o: string) {
    if s == [] then o == []
    else (o != [] && o[0] == s[0] && Thinned(s[1..], o[1..])) || (s[0] != '\n' && Thinned(s[1..], o))
  }

  lemma {:induction false} ThinnedConcat(s: string, o: string, t: string, p: string)
    requires Thinned(s, o) && Thinned(t, p)
    ensures Thinned(s + t, o + p)
  {
    if s == [] {
      assert s + t == t && o + p == p;
    } else {
      assert (s + t)[1..] == s[1..] + t;
      if o != [] && o[0] == s[0] && Thinned(s[1..], o[1..]) {
        assert (o + p)[1..] == o[1..] + p;
        ThinnedConcat(s[1..], o[1..], t, p);
      } else {
        ThinnedConcat(s[1..], o, t, p);
      }
    }
  }

  lemma NothingThinned()
    ensures Thinned([], [])
  {
  }

  lemma OneThinned(c: char)
    ensures Thinned([c], [c])
  {
    assert [c][1..] == [];
  }

  lemma OneDropped(c: char)
    requires c != '\n'
    ensures Thinned([c], [])
  {
    assert [c][1..] == [];
  }

  lemma {:induction false} NewlinesThinned(s: string)
    ensures Thinned(s, Newlines(s))
  {
    hide Thinned;
    if s == [] {
      NothingThinned();
    } else {
      NewlinesThinned(s[1..]);
      assert s == [s[0]] + s[1..];
      if s[0] == '\n' {
        OneThinned('\n');
        ThinnedConcat(['\n'], ['\n'], s[1..], Newlines(s[1..]));
      } else {
        OneDropped(s[0]);
        ThinnedConcat([s[0]], [], s[1..], Newlines(s[1..]));
        assert Newlines(s) == [] + Newlines(s[1..]);
      }
    }
  }

  lemma {:induction false} NoNewlineThinned(s: string, k: nat)
    requires k <= |s| && forall i :: 0 <= i < k ==> s[i] != '\n'
    ensures Thinned(s[..k], [])
  {
    if k > 0 {
      assert s[..k][1..] == s[1..][..k - 1];
      NoNewlineThinned(s[1..], k - 1);
    }
  }

  lemma {:induction false} BeforeNewline(s: string)
    ensures forall i :: 0 <= i < NewlineAt(s) ==> s[i] != '\n'
  {
    if s != [] && s[0] != '\n' {
      BeforeNewline(s[1..]);
      assert forall i :: 0 < i < |s| ==> s[i] == s[1..][i - 1];
    }
  }

  lemma {:induction false} StripThins(s: string, templates: bool)
    ensures Thinned(s, Strip(s, templates))
    decreases |s|
  {
    hide Thinned, Newlines, NewlineAt, BehindClose, QuoteAt;
    if s == [] {
      NothingThinned();
    } else if Starts(s, '/', '/') {
      var j := 2 + NewlineAt(s[2..]);
      StripThins(s[j..], templates);
      LineCommentThins(s);
      JoinThinned(s, j, [], Strip(s[j..], templates));
      assert [] + Strip(s[j..], templates) == Strip(s[j..], templates);
    } else if Starts(s, '/', '*') {
      var j := 2 + BehindClose(s[2..]);
      NewlinesThinned(s[..j]);
      StripThins(s[j..], templates);
      JoinThinned(s, j, Newlines(s[..j]), Strip(s[j..], templates));
    } else if IsQuote(s[0], templates) {
      var j := 1 + QuoteAt(s[1..], s[0]);
      var stop, next := AtMost(j, |s|), AtMost(j + 1, |s|);
      StripThins(s[next..], templates);
      StringThins(s);
      JoinThinned(s, next, Newlines(s[..stop]), Strip(s[next..], templates));
    } else {
      StripThins(s[1..], templates);
      OneThinned(s[0]);
      assert s[..1] == [s[0]];
      JoinThinned(s, 1, [s[0]], Strip(s[1..], templates));
    }
  }

  lemma LineCommentThins(s: string)
    requires Starts(s, '/', '/')
    ensures Thinned(s[..2 + NewlineAt(s[2..])], [])
  {
    var j := 2 + NewlineAt(s[2..]);
    BeforeNewline(s[2..]);
    hide NewlineAt;
    assert forall i :: 2 <= i < j ==> s[i] == s[2..][i - 2];
    NoNewlineThinned(s, j);
  }

  /** The characters of a string up to and with its closing quote leave its newlines. */
  lemma StringThins(s: string)
    requires s != [] && s[0] != '\n'
    ensures var j := 1 + QuoteAt(s[1..], s[0]);
      Thinned(s[..AtMost(j + 1, |s|)], Newlines(s[..AtMost(j, |s|)]))
  {
    hide Thinned, QuoteAt, Newlines;
    var j := 1 + QuoteAt(s[1..], s[0]);
    var stop, next := AtMost(j, |s|), AtMost(j + 1, |s|);
    NewlinesThinned(s[..stop]);
    QuoteIsNoNewline(s[1..], s[0]);
    assert j < |s| ==> s[1..][j - 1] == s[j];
    assert next == stop + 1 ==> s[stop] != '\n';
    NoNewlineThinned(s[stop..], next - stop);
    assert s[stop..][..next - stop] == s[stop..next];
    ThinnedConcat(s[..stop], Newlines(s[..stop]), s[stop..next], []);
    assert s[..stop] + s[stop..next] == s[..next] && Newlines(s[..stop]) + [] == Newlines(s[..stop]);
  }

  lemma {:induction false} QuoteIsNoNewline(s: string, q: char)
    ensures QuoteAt(s, q) < |s| ==> s[QuoteAt(s, q)] == q
    decreases |s|
  {
    if s == [] || s[0] == q {
    } else if s[0] != '\\' {
      QuoteIsNoNewline(s[1..], q);
    } else if |s| > 1 {
      QuoteIsNoNewline(s[2..], q);
    }
  }

  lemma JoinThinned(s: string, j: nat, o: string, p: string)
    requires j <= |s| && Thinned(s[..j], o) && Thinned(s[j..], p)
    ensures Thinned(s, o + p)
  {
    assert s[..j] + s[j..] == s;
    ThinnedConcat(s[..j], o, s[j..], p);
  }

  lemma {:induction false} ThinnedLines(s: string, o: string)
    requires Thinned(s, o)
    ensures |Lines(o)| == |Lines(s)| && forall k :: 0 <= k < |Lines(s)| ==> Thinned(Lines(s)[k], Lines(o)[k])
  {
    hide Lines;
    if s == [] {
      LinesStep(s);
    } else {
      LinesStep(s);
      if o != [] && o[0] == s[0] && Thinned(s[1..], o[1..]) {
        LinesStep(o);
        ThinnedLines(s[1..], o[1..]);
        KeptInLine(s[0], Lines(s[1..]), Lines(o[1..]));
      } else {
        ThinnedLines(s[1..], o);
        DroppedInLine(s[0], Lines(s[1..]), Lines(o));
      }
    }
  }

  lemma LinesStep(s: string)
    ensures s == [] ==> Lines(s) == [[]]
    ensures s != [] ==> Lines(s) == if s[0] == '\n' then [[]] + Lines(s[1..]) else WithFirst(s[0], Lines(s[1..]))
  {
  }

  function WithFirst(c: char, lines: seq<string>): seq<string>
    requires lines != []
  {
    [[c] + lines[0]] + lines[1..]
  }

  lemma KeptInLine(c: char, a: seq<string>, b: seq<string>)
    requires |a| == |b| >= 1 && forall k :: 0 <= k < |a| ==> Thinned(a[k], b[k])
    ensures forall k :: 0 <= k < |a| ==> Thinned(WithFirst(c, a)[k], WithFirst(c, b)[k])
    ensures forall k :: 0 <= k <= |a| ==> Thinned(([[]] + a)[k], ([[]] + b)[k])
  {
    NothingThinned();
    OneThinned(c);
    ThinnedConcat([c], [c], a[0], b[0]);
    hide Thinned;
    assert forall k :: 1 <= k <= |a| ==> ([[]] + a)[k] == a[k - 1] && ([[]] + b)[k] == b[k - 1];
  }

  lemma DroppedInLine(c: char, a: seq<string>, b: seq<string>)
    requires c != '\n' && |a| == |b| >= 1 && forall k :: 0 <= k < |a| ==> Thinned(a[k], b[k])
    ensures forall k :: 0 <= k < |a| ==> Thinned(WithFirst(c, a)[k], b[k])
  {
    OneDropped(c);
    ThinnedConcat([c], [], a[0], b[0]);
    hide Thinned;
    assert [] + b[0] == b[0];
  }

  /** For every text, terminated or not: as many lines come out as go in, and each is its input line with characters left
      out. */
  lemma LinesAreKept(text: string, templates: bool)
    ensures var code := Lines(Strip(text, templates));
      |code| == |Lines(text)| && forall k :: 0 <= k < |code| ==> Thinned(Lines(text)[k], code[k])
  {
    StripThins(text, templates);
    ThinnedLines(text, Strip(text, templates));
  }

  // ----- the same as a reader of single characters

  /** What a reader remembers: whether it is in code, behind a slash that may start a comment, in a comment (behind a star),
      or in a string (behind a backslash). */
  datatype Mode = Code | Slash | LineComment | Block(star: bool) | Quoted(q: char, escaped: bool)

  function Newline(c: char): string {
    if c == '\n' then [c] else []
  }

  /** The output of a reader in the given mode. */
  function ReadOn(m: Mode, s: string, templates: bool): string
    decreases |s|, m.Slash?
  {
    if s == [] then if m.Slash? then ['/'] else []
    else
      var c, rest := s[0], s[1..];
      match m
      case Code =>
        if c == '/' then ReadOn(Slash, rest, templates)
        else if IsQuote(c, templates) then ReadOn(Quoted(c, false), rest, templates)
        else [c] + ReadOn(Code, rest, templates)
      case Slash =>
        if c == '/' then ReadOn(LineComment, rest, templates)
        else if c == '*' then ReadOn(Block(false), rest, templates)
        else ['/'] + ReadOn(Code, s, templates)
      case LineComment => if c == '\n' then [c] + ReadOn(Code, rest, templates) else ReadOn(LineComment, rest, templates)
      case Block(star) =>
        Newline(c) + ReadOn(if star && c == '/' then Code else Block(c == '*'), rest, templates)
      case Quoted(q, escaped) =>
        Newline(c) + ReadOn(if !escaped && c == q then Code else Quoted(q, !escaped && c == '\\'), rest, templates)
  }

  lemma {:induction false} LineCommentRead(s: string, templates: bool)
    ensures ReadOn(LineComment, s, templates) == ReadOn(Code, s[NewlineAt(s)..], templates)
  {
    if s != [] && s[0] != '\n' {
      LineCommentRead(s[1..], templates);
      assert s[1..][NewlineAt(s[1..])..] == s[NewlineAt(s)..];
    } else {
      assert s[0..] == s;
    }
  }

  lemma StarOnlyBeforeSlash(s: string, templates: bool)
    requires s == [] || s[0] != '/'
    ensures ReadOn(Block(true), s, templates) == ReadOn(Block(false), s, templates)
  {
  }

  lemma {:induction false} BlockRead(s: string, templates: bool)
    ensures ReadOn(Block(false), s, templates) == Newlines(s[..BehindClose(s)]) + ReadOn(Code, s[BehindClose(s)..], templates)
  {
    var k := BehindClose(s);
    if s == [] {
    } else if Starts(s, '*', '/') {
      assert s[1..][1..] == s[2..] && s[..2] == ['*', '/'];
      assert Newlines(['*', '/']) == [] by { assert ['*', '/'][1..] == ['/'] && ['/'][1..] == []; }
      assert ReadOn(Block(false), s, templates) == [] + ReadOn(Block(true), s[1..], templates);
      assert ReadOn(Block(true), s[1..], templates) == [] + ReadOn(Code, s[2..], templates);
    } else {
      var rest := s[1..];
      BlockRead(rest, templates);
      StarOnlyBeforeSlashOf(s, templates);
      assert k == 1 + BehindClose(rest);
      NewlinesSplit(s, k);
      assert s[k..] == rest[k - 1..];
      Joined(Newline(s[0]), Newlines(rest[..k - 1]), ReadOn(Code, s[k..], templates));
    }
  }

  lemma StarOnlyBeforeSlashOf(s: string, templates: bool)
    requires s != [] && !Starts(s, '*', '/')
    ensures ReadOn(Block(false), s, templates) == Newline(s[0]) + ReadOn(Block(false), s[1..], templates)
  {
    if s[0] == '*' {
      StarOnlyBeforeSlash(s[1..], templates);
    }
  }

  lemma NewlinesSplit(s: string, k: nat)
    requires 0 < k <= |s|
    ensures Newlines(s[..k]) == Newline(s[0]) + Newlines(s[1..][..k - 1])
  {
    assert s[..k][1..] == s[1..][..k - 1];
  }

  lemma Joined(a: string, b: string, c: string)
    ensures a + (b + c) == (a + b) + c
  {
  }

  lemma {:induction false} QuotedRead(s: string, q: char, templates: bool)
    requires q != '\\' && q != '\n'
    ensures var k := QuoteAt(s, q);
      ReadOn(Quoted(q, false), s, templates)
        == Newlines(s[..AtMost(k, |s|)]) + ReadOn(Code, s[AtMost(k + 1, |s|)..], templates)
    decreases |s|
  {
    hide ReadOn, Newlines, QuoteAt;
    if s == [] || s[0] == q || (s[0] == '\\' && |s| == 1) {
      QuotedEnd(s, q, templates);
    } else {
      var n := if s[0] == '\\' then 2 else 1;
      QuoteLater(s, q, n);
      QuotedStep(s, q, n, templates);
      QuotedRead(s[n..], q, templates);
      QuotedSkip(s, q, n, templates);
    }
  }

  lemma QuoteLater(s: string, q: char, n: nat)
    requires q != '\\' && (n == 1 || n == 2) && n <= |s| && s[0] != q && (s[0] == '\\' <==> n == 2)
    ensures QuoteAt(s, q) == n + QuoteAt(s[n..], q)
  {
  }

  lemma QuotedEnd(s: string, q: char, templates: bool)
    requires q != '\\' && q != '\n' && (s == [] || s[0] == q || (s[0] == '\\' && |s| == 1))
    ensures var k := QuoteAt(s, q);
      ReadOn(Quoted(q, false), s, templates)
        == Newlines(s[..AtMost(k, |s|)]) + ReadOn(Code, s[AtMost(k + 1, |s|)..], templates)
  {
    if s != [] {
      if s[0] == q {
        assert s[..0] == [];
        assert ReadOn(Quoted(q, false), s, templates) == [] + ReadOn(Code, s[1..], templates);
      } else {
        assert s[1..] == [] && s[..1] == s;
        assert ReadOn(Quoted(q, false), s, templates) == [] + ReadOn(Quoted(q, true), [], templates);
      }
    }
  }

  /** One plain character, or a backslash and the character it hides. */
  lemma QuotedStep(s: string, q: char, n: nat, templates: bool)
    requires q != '\\' && (n == 1 || n == 2) && n <= |s| && s[0] != q && (s[0] == '\\' <==> n == 2)
    ensures ReadOn(Quoted(q, false), s, templates) == Newlines(s[..n]) + ReadOn(Quoted(q, false), s[n..], templates)
  {
    hide ReadOn, Newlines;
    QuotedOne(s, q, false, templates);
    NewlinesHead(s[..n]);
    if n == 1 {
      assert s[..1][1..] == [];
      NewlinesEmpty();
      assert Newline(s[0]) + [] == Newline(s[0]);
    } else {
      QuotedOne(s[1..], q, true, templates);
      assert s[1..][1..] == s[2..] && s[..2][1..] == [s[1]] && [s[1]][1..] == [];
      NewlinesHead([s[1]]);
      NewlinesEmpty();
      assert Newline(s[0]) == [] && Newline(s[1]) + [] == Newline(s[1]);
      assert [] + Newline(s[1]) == Newline(s[1]);
      assert [] + (Newline(s[1]) + ReadOn(Quoted(q, false), s[2..], templates))
          == Newline(s[1]) + ReadOn(Quoted(q, false), s[2..], templates);
    }
  }

  lemma NewlinesEmpty()
    ensures Newlines([]) == []
  {
  }

  lemma QuotedOne(s: string, q: char, escaped: bool, templates: bool)
    requires s != [] && (escaped || s[0] != q)
    ensures ReadOn(Quoted(q, escaped), s, templates)
         == Newline(s[0]) + ReadOn(Quoted(q, !escaped && s[0] == '\\'), s[1..], templates)
  {
  }

  lemma NewlinesHead(s: string)
    requires s != []
    ensures Newlines(s) == Newline(s[0]) + Newlines(s[1..])
  {
  }

  lemma {:induction false} NewlinesOfConcat(a: string, b: string)
    ensures Newlines(a + b) == Newlines(a) + Newlines(b)
  {
    if a == [] {
      assert a + b == b && Newlines(a) == [] && [] + Newlines(b) == Newlines(b);
    } else {
      hide Newlines;
      assert (a + b)[1..] == a[1..] + b;
      NewlinesOfConcat(a[1..], b);
      NewlinesHead(a);
      NewlinesHead(a + b);
      Joined(Newline(a[0]), Newlines(a[1..]), Newlines(b));
    }
  }

  lemma QuotedSkip(s: string, q: char, n: nat, templates: bool)
    requires 0 < n <= |s| && QuoteAt(s, q) == n + QuoteAt(s[n..], q)
    ensures var k, j := QuoteAt(s, q), QuoteAt(s[n..], q);
      Newlines(s[..n]) + (Newlines(s[n..][..AtMost(j, |s| - n)]) + ReadOn(Code, s[n..][AtMost(j + 1, |s| - n)..], templates))
        == Newlines(s[..AtMost(k, |s|)]) + ReadOn(Code, s[AtMost(k + 1, |s|)..], templates)
  {
    hide Newlines, ReadOn, QuoteAt;
    var k, j := QuoteAt(s, q), QuoteAt(s[n..], q);
    var stop, next := AtMost(k, |s|), AtMost(k + 1, |s|);
    assert s[n..][..stop - n] == s[n..stop] && s[n..][next - n..] == s[next..];
    assert s[..n] + s[n..stop] == s[..stop];
    NewlinesOfConcat(s[..n], s[n..stop]);
    Joined(Newlines(s[..n]), Newlines(s[n..stop]), ReadOn(Code, s[next..], templates));
  }

  /** Skipping from mark to mark, as the code does, gives what reading character by character gives. */
  lemma {:induction false} StripIsReading(s: string, templates: bool)
    ensures Strip(s, templates) == ReadOn(Code, s, templates)
    decreases |s|
  {
    hide Newlines, NewlineAt, BehindClose, QuoteAt, ReadOn;
    if s == [] {
      EmptyIsRead(templates);
    } else if Starts(s, '/', '/') {
      LineCommentIsRead(s, templates);
      StripIsReading(s[2 + NewlineAt(s[2..])..], templates);
    } else if Starts(s, '/', '*') {
      BlockIsRead(s, templates);
      StripIsReading(s[2 + BehindClose(s[2..])..], templates);
    } else if IsQuote(s[0], templates) {
      StringIsRead(s, templates);
      StripIsReading(s[AtMost(2 + QuoteAt(s[1..], s[0]), |s|)..], templates);
    } else {
      StripIsReading(s[1..], templates);
      PlainIsRead(s, templates);
    }
  }

  lemma EmptyIsRead(templates: bool)
    ensures ReadOn(Code, [], templates) == []
  {
  }

  lemma LineCommentIsRead(s: string, templates: bool)
    requires Starts(s, '/', '/')
    ensures ReadOn(Code, s, templates) == ReadOn(Code, s[2 + NewlineAt(s[2..])..], templates)
  {
    LineCommentRead(s[2..], templates);
    var k := NewlineAt(s[2..]);
    hide NewlineAt;
    assert s[1..][1..] == s[2..] && s[2..][k..] == s[2 + k..];
    assert ReadOn(Code, s, templates) == ReadOn(Slash, s[1..], templates) == ReadOn(LineComment, s[2..], templates);
  }

  lemma BlockIsRead(s: string, templates: bool)
    requires Starts(s, '/', '*')
    ensures var j := 2 + BehindClose(s[2..]);
      ReadOn(Code, s, templates) == Newlines(s[..j]) + ReadOn(Code, s[j..], templates)
  {
    hide BehindClose, Newlines, ReadOn;
    var k := BehindClose(s[2..]);
    SlashStarRead(s, templates);
    BlockRead(s[2..], templates);
    assert s[2..][k..] == s[2 + k..] && s[..2 + k] == s[..2] + s[2..][..k];
    assert s[..2] == ['/', '*'];
    NewlinesOfConcat(s[..2], s[2..][..k]);
    NoNewlines('/', '*');
  }

  lemma SlashStarRead(s: string, templates: bool)
    requires Starts(s, '/', '*')
    ensures ReadOn(Code, s, templates) == ReadOn(Block(false), s[2..], templates)
  {
    assert s[1..][1..] == s[2..];
    assert ReadOn(Code, s, templates) == ReadOn(Slash, s[1..], templates);
  }

  lemma NoNewlines(a: char, b: char)
    requires a != '\n' && b != '\n'
    ensures Newlines([a, b]) == []
  {
    NewlinesHead([a, b]);
    assert [a, b][1..] == [b] && [b][1..] == [];
    NewlinesHead([b]);
  }

  lemma PlainIsRead(s: string, templates: bool)
    requires s != [] && !IsQuote(s[0], templates) && !Starts(s, '/', '/') && !Starts(s, '/', '*')
    ensures ReadOn(Code, s, templates) == [s[0]] + ReadOn(Code, s[1..], templates)
  {
  }

  lemma StringIsRead(s: string, templates: bool)
    requires s != [] && IsQuote(s[0], templates)
    ensures var j := 1 + QuoteAt(s[1..], s[0]);
      ReadOn(Code, s, templates) == Newlines(s[..AtMost(j, |s|)]) + ReadOn(Code, s[AtMost(j + 1, |s|)..], templates)
  {
    hide QuoteAt, ReadOn, Newlines;
    var k := QuoteAt(s[1..], s[0]);
    OpenQuoteRead(s, templates);
    QuotedRead(s[1..], s[0], templates);
    var stop, next := AtMost(k + 1, |s|), AtMost(k + 2, |s|);
    NewlinesSplit(s, stop);
    assert s[1..][next - 1..] == s[next..];
    assert [] + Newlines(s[1..][..stop - 1]) == Newlines(s[1..][..stop - 1]);
  }

  lemma OpenQuoteRead(s: string, templates: bool)
    requires s != [] && IsQuote(s[0], templates)
    ensures ReadOn(Code, s, templates) == ReadOn(Quoted(s[0], false), s[1..], templates)
  {
  }
}
