/** The recorded difference of two line lists, and the reconstruction of the new list from the old one and the record. */
module Diff {

  datatype Tag = Equal | Insert | Delete | Replace

  /** One opcode of difflib: prev[i1..i2] becomes cur[j1..j2]. */
  datatype Op = Op(tag: Tag, i1: nat, i2: nat, j1: nat, j2: nat)

  /** A recorded line, numbered from 1. */
  datatype Line = Line(line: int, text: string)

  /** The lines a (inclusive) to b (exclusive) of a text, as recorded. */
  function Lines(text: seq<string>, a: nat, b: nat): (r: seq<Line>)
    requires a <= b <= |text|
    ensures |r| == b - a && forall k :: 0 <= k < b - a ==> r[k] == Line(a + k + 1, text[a + k])
  {
    if a == b then [] else Lines(text, a, b - 1) + [Line(b, text[b - 1])]
  }

  predicate Covers(op: Op, prev: seq<string>, cur: seq<string>) {
    && op.i1 <= op.i2 <= |prev| && op.j1 <= op.j2 <= |cur|
    && match op.tag
       case Equal => prev[op.i1..op.i2] == cur[op.j1..op.j2]
       case Insert => op.i1 == op.i2 && op.j1 < op.j2
       case Delete => op.i1 < op.i2 && op.j1 == op.j2
       case Replace => op.i1 < op.i2 && op.j1 < op.j2
  }

  /** An opcode list that leads from the start of both texts to line i of prev and line j of cur. */
  predicate Leads(ops: seq<Op>, prev: seq<string>, cur: seq<string>, i: nat, j: nat) {
    if ops == [] then i == 0 && j == 0
    else
      var last := ops[|ops| - 1];
      Covers(last, prev, cur) && last.i2 == i && last.j2 == j && Leads(ops[..|ops| - 1], prev, cur, last.i1, last.j1)
  }

  /** What get_opcodes promises. */
  predicate Valid(ops: seq<Op>, prev: seq<string>, cur: seq<string>) {
    Leads(ops, prev, cur, |prev|, |cur|)
  }

  /** One old line replaced by itself and more: recorded as an append. */
  predicate KeepsFirst(op: Op, prev: seq<string>, cur: seq<string>)
    requires Covers(op, prev, cur)
  {
    op.tag == Replace && op.i2 - op.i1 == 1 && op.j2 - op.j1 >= 1 && prev[op.i1] == cur[op.j1]
  }

  function AddedBy(op: Op, prev: seq<string>, cur: seq<string>): seq<Line>
    requires Covers(op, prev, cur)
  {
    match op.tag
    case Equal => []
    case Insert => Lines(cur, op.j1, op.j2)
    case Delete => []
    case Replace => Lines(cur, if KeepsFirst(op, prev, cur) then op.j1 + 1 else op.j1, op.j2)
  }

  function RemovedBy(op: Op, prev: seq<string>, cur: seq<string>): seq<Line>
    requires Covers(op, prev, cur)
  {
    match op.tag
    case Equal => []
    case Insert => []
    case Delete => Lines(prev, op.i1, op.i2)
    case Replace => if KeepsFirst(op, prev, cur) then [] else Lines(prev, op.i1, op.i2)
  }

  function Added(ops: seq<Op>, prev: seq<string>, cur: seq<string>): seq<Line>
    requires forall k :: 0 <= k < |ops| ==> Covers(ops[k], prev, cur)
  {
    if ops == [] then [] else Added(ops[..|ops| - 1], prev, cur) + AddedBy(ops[|ops| - 1], prev, cur)
  }

  function Removed(ops: seq<Op>, prev: seq<string>, cur: seq<string>): seq<Line>
    requires forall k :: 0 <= k < |ops| ==> Covers(ops[k], prev, cur)
  {
    if ops == [] then [] else Removed(ops[..|ops| - 1], prev, cur) + RemovedBy(ops[|ops| - 1], prev, cur)
  }

  lemma {:induction false} LeadsCovers(ops: seq<Op>, prev: seq<string>, cur: seq<string>, i: nat, j: nat)
    requires Leads(ops, prev, cur, i, j)
    ensures forall k :: 0 <= k < |ops| ==> Covers(ops[k], prev, cur)
    ensures i <= |prev| && j <= |cur|
  {
    hide Covers;
    if ops != [] {
      var last := ops[|ops| - 1];
      LeadsCovers(ops[..|ops| - 1], prev, cur, last.i1, last.j1);
      CoversInRange(last, prev, cur);
    }
  }

  predicate Bounded(op: Op, prev: seq<string>, cur: seq<string>) {
    op.i1 <= op.i2 <= |prev| && op.j1 <= op.j2 <= |cur|
  }

  lemma CoversInRange(op: Op, prev: seq<string>, cur: seq<string>)
    requires Covers(op, prev, cur)
    ensures Bounded(op, prev, cur)
  {
  }

  lemma NothingRecorded(prev: seq<string>, cur: seq<string>)
    ensures Added([], prev, cur) == [] && Removed([], prev, cur) == []
  {
  }

  /** intent_diff() over the opcodes. */
  method IntentDiff(ops: seq<Op>, prev: seq<string>, cur: seq<string>) returns (added: seq<Line>, removed: seq<Line>, changed: seq<Line>)
    requires forall k :: 0 <= k < |ops| ==> Covers(ops[k], prev, cur)
    ensures added == Added(ops, prev, cur) && removed == Removed(ops, prev, cur) && changed == []
  {
    hide Added, Removed, LineNumbers;
    NothingRecorded(prev, cur);
    assert ops[..0] == [];
    added, removed, changed := [], [], [];
    for k := 0 to |ops|
      invariant added == Added(ops[..k], prev, cur) && removed == Removed(ops[..k], prev, cur)
    {
      var op := ops[k];
      assert ops[..k] + [op] == ops[..k + 1];
      RecordsOfLonger(ops[..k], op, prev, cur);
      match op.tag {
        case Equal =>
        case Insert => added := added + Lines(cur, op.j1, op.j2);
        case Delete => removed := removed + Lines(prev, op.i1, op.i2);
        case Replace =>
          if op.i2 - op.i1 == 1 && op.j2 - op.j1 >= 1 && prev[op.i1] == cur[op.j1] {
            added := added + Lines(cur, op.j1 + 1, op.j2);
          } else {
            removed := removed + Lines(prev, op.i1, op.i2);
            added := added + Lines(cur, op.j1, op.j2);
          }
      }
    }
    assert ops[..|ops|] == ops;
  }

  // ----- the reconstruction

  function LineNumbers(lines: seq<Line>): set<int> {
    set k | 0 <= k < |lines| :: lines[k].line
  }

  /** The text without the lines whose number is in gone. */
  function Without(text: seq<string>, gone: set<int>): seq<string> {
    if text == [] then []
    else Without(text[..|text| - 1], gone) + if |text| in gone then [] else [text[|text| - 1]]
  }

  /** list.insert: a position behind the end appends; a negative one counts from the end. */
  function InsertAt(text: seq<string>, position: int, line: string): (r: seq<string>)
    ensures |r| == |text| + 1
  {
    var p := if position > |text| then |text| else if position >= 0 then position
             else if position + |text| >= 0 then position + |text| else 0;
    text[..p] + [line] + text[p..]
  }

  function InsertAll(text: seq<string>, lines: seq<Line>): (r: seq<string>)
    ensures |r| == |text| + |lines|
  {
    if lines == [] then text
    else InsertAt(InsertAll(text, lines[..|lines| - 1]), lines[|lines| - 1].line - 1, lines[|lines| - 1].text)
  }

  /** sorted(key=line): stable. */
  function PlaceByLine(s: seq<Line>, x: Line): seq<Line> {
    if s != [] && s[|s| - 1].line > x.line then PlaceByLine(s[..|s| - 1], x) + [s[|s| - 1]] else s + [x]
  }

  function SortByLine(s: seq<Line>): seq<Line> {
    if s == [] then [] else PlaceByLine(SortByLine(s[..|s| - 1]), s[|s| - 1])
  }

  /** The record of each removed or changed line has the text of that line. */
  predicate TextsMatch(text: seq<string>, lines: seq<Line>) {
    forall k :: 0 <= k < |lines| ==> 0 < lines[k].line <= |text| && text[lines[k].line - 1] == lines[k].text
  }

  function Rebuilt(prev: seq<string>, added: seq<Line>, removed: seq<Line>, changed: seq<Line>): seq<string> {
    InsertAll(Without(prev, LineNumbers(removed) + LineNumbers(changed)), SortByLine(added))
  }

  lemma NothingWithout(gone: set<int>)
    ensures Without([], gone) == []
  {
  }

  lemma OneLineMore(text: seq<string>, i: nat, gone: set<int>)
    requires i < |text|
    ensures Without(text[..i + 1], gone) == Without(text[..i], gone) + if i + 1 in gone then [] else [text[i]]
  {
    assert text[..i + 1][..i] == text[..i];
  }

  lemma NothingInserted(s: seq<string>)
    ensures InsertAll(s, []) == s
  {
  }

  lemma OneInsertMore(s: seq<string>, lines: seq<Line>, k: nat)
    requires k < |lines|
    ensures InsertAll(s, lines[..k + 1]) == InsertAt(InsertAll(s, lines[..k]), lines[k].line - 1, lines[k].text)
  {
    assert lines[..k + 1][..k] == lines[..k];
  }

  lemma NoRecords(text: seq<string>)
    ensures TextsMatch(text, [])
  {
  }

  lemma OneRecordMore(text: seq<string>, lines: seq<Line>, k: nat)
    requires k < |lines|
    ensures TextsMatch(text, lines[..k + 1])
            <==> TextsMatch(text, lines[..k]) && 0 < lines[k].line <= |text| && text[lines[k].line - 1] == lines[k].text
  {
    assert forall m :: 0 <= m < k ==> lines[..k + 1][m] == lines[..k][m];
    assert lines[..k + 1][k] == lines[k];
  }

  /** The reconstruction of the migration check. */
  method Rebuild(archived: seq<string>, added: seq<Line>, removed: seq<Line>, changed: seq<Line>)
    returns (textsRecorded: bool, rebuilt: seq<string>)
    ensures textsRecorded == TextsMatch(archived, removed + changed)
    ensures rebuilt == Rebuilt(archived, added, removed, changed)
  {
    hide TextsMatch, Without, InsertAll, InsertAt, SortByLine;
    var gone := LineNumbers(removed) + LineNumbers(changed);
    textsRecorded := true;
    NoRecords(archived);
    var recorded := removed + changed;
    assert recorded[..0] == [];
    for k := 0 to |recorded|
      invariant textsRecorded == TextsMatch(archived, recorded[..k])
    {
      var r := recorded[k];
      OneRecordMore(archived, recorded, k);
      textsRecorded := textsRecorded && 0 < r.line <= |archived| && archived[r.line - 1] == r.text;
    }
    assert recorded[..|recorded|] == recorded;
    rebuilt := [];
    NothingWithout(gone);
    assert archived[..0] == [];
    for i := 0 to |archived|
      invariant rebuilt == Without(archived[..i], gone)
    {
      OneLineMore(archived, i, gone);
      if i + 1 !in gone {
        rebuilt := rebuilt + [archived[i]];
      }
    }
    assert archived[..|archived|] == archived;
    ghost var start := rebuilt;
    var sorted := SortByLine(added);
    NothingInserted(start);
    assert sorted[..0] == [];
    for k := 0 to |sorted|
      invariant rebuilt == InsertAll(start, sorted[..k])
    {
      OneInsertMore(start, sorted, k);
      rebuilt := InsertAt(rebuilt, sorted[k].line - 1, sorted[k].text);
    }
    assert sorted[..|sorted|] == sorted;
  }

  // ----- they undo each other

  predicate Ascending(lines: seq<Line>) {
    forall a, b :: 0 <= a < b < |lines| ==> lines[a].line < lines[b].line
  }

  lemma SortStep(s: seq<Line>)
    requires s != []
    ensures SortByLine(s) == PlaceByLine(SortByLine(s[..|s| - 1]), s[|s| - 1])
  {
  }

  lemma PlaceLast(s: seq<Line>, x: Line)
    requires s != [] ==> s[|s| - 1].line < x.line
    ensures PlaceByLine(s, x) == s + [x]
  {
  }

  lemma {:induction false} SortOfAscending(lines: seq<Line>)
    requires Ascending(lines)
    ensures SortByLine(lines) == lines
  {
    if lines != [] {
      SortOfAscending(lines[..|lines| - 1]);
      hide SortByLine;
      SortStep(lines);
      PlaceLast(lines[..|lines| - 1], lines[|lines| - 1]);
    }
  }

  /** Every insert position exists when its line is inserted into a text of the given length. */
  predicate InRange(length: nat, lines: seq<Line>) {
    forall k :: 0 <= k < |lines| ==> 1 <= lines[k].line <= length + k + 1
  }

  lemma InsertAtAppend(s: seq<string>, y: seq<string>, p: int, line: string)
    requires 0 <= p <= |s|
    ensures InsertAt(s + y, p, line) == InsertAt(s, p, line) + y
  {
    assert (s + y)[..p] == s[..p] && (s + y)[p..] == s[p..] + y;
  }

  lemma {:induction false} InsertAllAppend(x: seq<string>, y: seq<string>, lines: seq<Line>)
    requires InRange(|x|, lines)
    ensures InsertAll(x + y, lines) == InsertAll(x, lines) + y
  {
    hide InsertAt;
    if lines != [] {
      var n := |lines| - 1;
      InsertAllAppend(x, y, lines[..n]);
      InsertAtAppend(InsertAll(x, lines[..n]), y, lines[n].line - 1, lines[n].text);
    }
  }

  lemma {:induction false} InsertAllTwice(x: seq<string>, a: seq<Line>, b: seq<Line>)
    ensures InsertAll(x, a + b) == InsertAll(InsertAll(x, a), b)
  {
    if b == [] {
      assert a + b == a;
    } else {
      assert (a + b)[..|a + b| - 1] == a + b[..|b| - 1];
      InsertAllTwice(x, a, b[..|b| - 1]);
    }
  }

  lemma InsertNext(text: seq<string>, b: nat)
    requires 0 < b <= |text|
    ensures InsertAt(text[..b - 1], b - 1, text[b - 1]) == text[..b]
  {
    var head := text[..b - 1];
    assert head[..b - 1] == head && head[b - 1..] == [];
    assert head + [text[b - 1]] == text[..b];
  }

  lemma LinesInOrder(text: seq<string>, a: nat, b: nat)
    requires a <= b <= |text|
    ensures InRange(a, Lines(text, a, b)) && Ascending(Lines(text, a, b))
    ensures a < b ==> Lines(text, a, b) == Lines(text, a, b - 1) + [Line(b, text[b - 1])]
  {
  }

  /** Inserting the lines a..b of a text behind its first a lines gives its first b lines. */
  lemma {:induction false} InsertRun(text: seq<string>, a: nat, b: nat)
    requires a <= b <= |text|
    ensures InsertAll(text[..a], Lines(text, a, b)) == text[..b]
  {
    hide InsertAt, Lines;
    if a < b {
      LinesInOrder(text, a, b);
      var before := Lines(text, a, b - 1);
      assert (before + [Line(b, text[b - 1])])[..|before|] == before;
      InsertRun(text, a, b - 1);
      InsertNext(text, b);
    }
  }

  function Shifted(gone: set<int>, offset: int): (r: set<int>)
    ensures forall k :: k in r <==> k + offset in gone
  {
    assert forall g :: g in gone ==> g - offset + offset == g;
    set g | g in gone :: g - offset
  }

  lemma {:induction false} WithoutAppend(x: seq<string>, y: seq<string>, gone: set<int>)
    ensures Without(x + y, gone) == Without(x, gone) + Without(y, Shifted(gone, |x|))
  {
    hide Shifted;
    if y == [] {
      assert x + y == x;
    } else {
      assert (x + y)[..|x + y| - 1] == x + y[..|y| - 1];
      WithoutAppend(x, y[..|y| - 1], gone);
    }
  }

  lemma {:induction false} WithoutSame(text: seq<string>, a: set<int>, b: set<int>)
    requires forall k :: 1 <= k <= |text| ==> (k in a <==> k in b)
    ensures Without(text, a) == Without(text, b)
  {
    if text != [] {
      WithoutSame(text[..|text| - 1], a, b);
    }
  }

  lemma {:induction false} WithoutNone(text: seq<string>, gone: set<int>)
    requires forall k :: 1 <= k <= |text| ==> k !in gone
    ensures Without(text, gone) == text
  {
    if text != [] {
      WithoutNone(text[..|text| - 1], gone);
    }
  }

  lemma {:induction false} WithoutAll(text: seq<string>, gone: set<int>)
    requires forall k :: 1 <= k <= |text| ==> k in gone
    ensures Without(text, gone) == []
  {
    if text != [] {
      WithoutAll(text[..|text| - 1], gone);
    }
  }

  /** What the record of the opcodes up to lines i and j says. */
  ghost predicate Undone(ops: seq<Op>, prev: seq<string>, cur: seq<string>, i: nat, j: nat)
    requires i <= |prev| && j <= |cur| && forall k :: 0 <= k < |ops| ==> Covers(ops[k], prev, cur)
  {
    var added, removed := Added(ops, prev, cur), Removed(ops, prev, cur);
    var kept := Without(prev[..i], LineNumbers(removed));
    && InsertAll(kept, added) == cur[..j]
    && InRange(|kept|, added)
    && Ascending(added) && (forall k :: 0 <= k < |added| ==> added[k].line <= j)
    && TextsMatch(prev[..i], removed)
  }

  /** The old lines an opcode keeps. */
  function KeptBy(op: Op, prev: seq<string>, cur: seq<string>): seq<string>
    requires Covers(op, prev, cur)
  {
    if op.tag == Equal || KeepsFirst(op, prev, cur) then prev[op.i1..op.i2] else []
  }

  /** An opcode adds the new lines behind those it keeps. */
  lemma OpAdds(op: Op, prev: seq<string>, cur: seq<string>)
    requires Covers(op, prev, cur)
    ensures var kept := KeptBy(op, prev, cur);
      && op.j1 + |kept| <= op.j2 && cur[..op.j1] + kept == cur[..op.j1 + |kept|]
      && AddedBy(op, prev, cur) == Lines(cur, op.j1 + |kept|, op.j2)
  {
    hide Lines;
    match op.tag
    case Equal =>
      assert cur[..op.j1] + cur[op.j1..op.j2] == cur[..op.j2];
      assert Lines(cur, op.j2, op.j2) == [];
    case Insert => assert cur[..op.j1] + [] == cur[..op.j1];
    case Delete =>
      assert cur[..op.j1] + [] == cur[..op.j1];
      assert Lines(cur, op.j2, op.j2) == [];
    case Replace =>
      if KeepsFirst(op, prev, cur) {
        assert prev[op.i1..op.i2] == [cur[op.j1]];
        assert cur[..op.j1] + [cur[op.j1]] == cur[..op.j1 + 1];
      } else {
        assert cur[..op.j1] + [] == cur[..op.j1];
      }
  }

  /** Behind the first j1 new lines, the kept lines and the added ones make the first j2 new lines. */
  lemma OpBuilds(op: Op, prev: seq<string>, cur: seq<string>)
    requires Covers(op, prev, cur)
    ensures InsertAll(cur[..op.j1] + KeptBy(op, prev, cur), AddedBy(op, prev, cur)) == cur[..op.j2]
    ensures InRange(op.j1 + |KeptBy(op, prev, cur)|, AddedBy(op, prev, cur)) && Ascending(AddedBy(op, prev, cur))
    ensures forall k :: 0 <= k < |AddedBy(op, prev, cur)| ==> op.j1 < AddedBy(op, prev, cur)[k].line <= op.j2
  {
    hide KeptBy, AddedBy, InsertAll;
    OpAdds(op, prev, cur);
    LinesInOrder(cur, op.j1 + |KeptBy(op, prev, cur)|, op.j2);
    InsertRun(cur, op.j1 + |KeptBy(op, prev, cur)|, op.j2);
  }

  /** The record of one opcode removes exactly the lines it does not keep. */
  lemma OpRemoves(op: Op, prev: seq<string>, cur: seq<string>)
    requires Covers(op, prev, cur)
    ensures TextsMatch(prev[..op.i2], RemovedBy(op, prev, cur))
    ensures forall k :: k in LineNumbers(RemovedBy(op, prev, cur)) ==> op.i1 < k <= op.i2
    ensures KeptBy(op, prev, cur) == [] ==> forall k :: op.i1 < k <= op.i2 ==> k in LineNumbers(RemovedBy(op, prev, cur))
    ensures KeptBy(op, prev, cur) != [] ==> RemovedBy(op, prev, cur) == [] && KeptBy(op, prev, cur) == prev[op.i1..op.i2]
  {
    var lines := RemovedBy(op, prev, cur);
    if op.tag == Delete || (op.tag == Replace && !KeepsFirst(op, prev, cur)) {
      forall k | op.i1 < k <= op.i2
        ensures k in LineNumbers(lines)
      {
        assert lines[k - op.i1 - 1].line == k;
      }
    }
  }

  /** Two records, of the first i lines and of lines behind them. */
  lemma WithoutBoth(prev: seq<string>, i: nat, j: nat, removed: seq<Line>, own: seq<Line>)
    requires i <= j <= |prev| && TextsMatch(prev[..i], removed)
    requires forall k :: k in LineNumbers(own) ==> i < k <= j
    ensures Without(prev[..j], LineNumbers(removed + own))
         == Without(prev[..i], LineNumbers(removed)) + Without(prev[i..j], Shifted(LineNumbers(removed + own), i))
    ensures forall k :: 1 <= k <= j - i ==> (k in Shifted(LineNumbers(removed + own), i) <==> k + i in LineNumbers(own))
  {
    LineNumbersOfConcat(removed, own);
    RecordedInside(prev[..i], removed);
    hide LineNumbers, Shifted, TextsMatch;
    assert prev[..j] == prev[..i] + prev[i..j];
    WithoutAppend(prev[..i], prev[i..j], LineNumbers(removed + own));
    WithoutSame(prev[..i], LineNumbers(removed + own), LineNumbers(removed));
  }

  lemma RecordedInside(text: seq<string>, lines: seq<Line>)
    requires TextsMatch(text, lines)
    ensures forall k :: k in LineNumbers(lines) ==> 1 <= k <= |text|
  {
  }

  /** The kept lines of a longer opcode list: those of the shorter one, then those of the last opcode. */
  lemma KeptGrows(op: Op, prev: seq<string>, cur: seq<string>, removed: seq<Line>)
    requires Covers(op, prev, cur) && TextsMatch(prev[..op.i1], removed)
    ensures Without(prev[..op.i2], LineNumbers(removed + RemovedBy(op, prev, cur)))
         == Without(prev[..op.i1], LineNumbers(removed)) + KeptBy(op, prev, cur)
  {
    hide Covers, RemovedBy, KeptBy, LineNumbers, Shifted, TextsMatch, Without;
    CoversInRange(op, prev, cur);
    OpRemoves(op, prev, cur);
    var own := RemovedBy(op, prev, cur);
    WithoutBoth(prev, op.i1, op.i2, removed, own);
    var shifted := Shifted(LineNumbers(removed + own), op.i1);
    if KeptBy(op, prev, cur) == [] {
      WithoutAll(prev[op.i1..op.i2], shifted);
    } else {
      NoLineNumbers();
      WithoutNone(prev[op.i1..op.i2], shifted);
    }
  }

  lemma NoLineNumbers()
    ensures LineNumbers([]) == {}
  {
  }

  lemma LineNumbersOfConcat(a: seq<Line>, b: seq<Line>)
    ensures LineNumbers(a + b) == LineNumbers(a) + LineNumbers(b)
  {
    forall k | 0 <= k < |b|
      ensures b[k].line in LineNumbers(a + b)
    {
      assert (a + b)[|a| + k] == b[k];
    }
    forall k | 0 <= k < |a|
      ensures a[k].line in LineNumbers(a + b)
    {
      assert (a + b)[k] == a[k];
    }
  }

  lemma RecordsConcat(n: nat, kept: nat, a: seq<Line>, b: seq<Line>, j1: int, j2: int)
    requires InRange(n, a) && InRange(n + |a| + kept, b) && Ascending(a) && Ascending(b)
    requires forall k :: 0 <= k < |a| ==> a[k].line <= j1
    requires (forall k :: 0 <= k < |b| ==> j1 < b[k].line <= j2) && j1 <= j2
    ensures InRange(n + kept, a + b) && Ascending(a + b) && forall k :: 0 <= k < |a + b| ==> (a + b)[k].line <= j2
  {
  }

  lemma TextsConcat(prev: seq<string>, i1: nat, i2: nat, a: seq<Line>, b: seq<Line>)
    requires i1 <= i2 <= |prev| && TextsMatch(prev[..i1], a) && TextsMatch(prev[..i2], b)
    ensures TextsMatch(prev[..i2], a + b)
  {
  }

  lemma RecordsOfLonger(ops: seq<Op>, op: Op, prev: seq<string>, cur: seq<string>)
    requires forall k :: 0 <= k < |ops| ==> Covers(ops[k], prev, cur)
    requires Covers(op, prev, cur)
    ensures forall k :: 0 <= k < |ops + [op]| ==> Covers((ops + [op])[k], prev, cur)
    ensures Added(ops + [op], prev, cur) == Added(ops, prev, cur) + AddedBy(op, prev, cur)
    ensures Removed(ops + [op], prev, cur) == Removed(ops, prev, cur) + RemovedBy(op, prev, cur)
  {
    hide Covers, AddedBy, RemovedBy;
    assert (ops + [op])[..|ops|] == ops && (ops + [op])[|ops|] == op;
  }

  lemma InsertsFit(before: seq<string>, kept: seq<string>, added: seq<Line>, appended: seq<Line>, cur: seq<string>, j1: nat, j2: nat)
    requires j1 <= |cur| && j2 <= |cur| && InsertAll(before, added) == cur[..j1] && InRange(|before|, added)
    requires InsertAll(cur[..j1] + kept, appended) == cur[..j2]
    ensures InsertAll(before + kept, added + appended) == cur[..j2] && |before| + |added| == j1
  {
    hide InRange;
    InsertAllTwice(before + kept, added, appended);
    InsertAllAppend(before, kept, added);
    hide InsertAll;
  }

  lemma UndoneNext(ops: seq<Op>, op: Op, prev: seq<string>, cur: seq<string>)
    requires forall k :: 0 <= k < |ops| ==> Covers(ops[k], prev, cur)
    requires Covers(op, prev, cur) && Bounded(op, prev, cur) && Undone(ops, prev, cur, op.i1, op.j1)
    requires forall k :: 0 <= k < |ops + [op]| ==> Covers((ops + [op])[k], prev, cur)
    ensures Undone(ops + [op], prev, cur, op.i2, op.j2)
  {
    hide Covers, Added, Removed, RemovedBy, KeptBy, AddedBy, InsertAll, Without, InRange, Ascending, TextsMatch, LineNumbers;
    RecordsOfLonger(ops, op, prev, cur);
    var added, removed := Added(ops, prev, cur), Removed(ops, prev, cur);
    var appended, kept := AddedBy(op, prev, cur), KeptBy(op, prev, cur);
    var before := Without(prev[..op.i1], LineNumbers(removed));
    KeptGrows(op, prev, cur, removed);
    OpBuilds(op, prev, cur);
    OpRemoves(op, prev, cur);
    InsertsFit(before, kept, added, appended, cur, op.j1, op.j2);
    RecordsConcat(|before|, |kept|, added, appended, op.j1, op.j2);
    TextsConcat(prev, op.i1, op.i2, removed, RemovedBy(op, prev, cur));
  }

  lemma {:induction false} LeadsIsUndone(ops: seq<Op>, prev: seq<string>, cur: seq<string>, i: nat, j: nat)
    requires Leads(ops, prev, cur, i, j)
    requires i <= |prev| && j <= |cur| && forall k :: 0 <= k < |ops| ==> Covers(ops[k], prev, cur)
    ensures Undone(ops, prev, cur, i, j)
  {
    hide Covers, Undone;
    if ops == [] {
      NothingUndone(prev, cur);
    } else {
      var n := |ops| - 1;
      var last := ops[n];
      LeadsCovers(ops[..n], prev, cur, last.i1, last.j1);
      LeadsIsUndone(ops[..n], prev, cur, last.i1, last.j1);
      CoversInRange(last, prev, cur);
      assert ops[..n] + [last] == ops;
      UndoneNext(ops[..n], last, prev, cur);
    }
  }

  lemma NothingUndone(prev: seq<string>, cur: seq<string>)
    ensures Undone([], prev, cur, 0, 0)
  {
    assert prev[..0] == [] && cur[..0] == [];
  }

  /** For every valid opcode list, deleting the recorded removed lines and inserting the recorded added ones gives the new
      text: every insert position is in range, and the recorded removed texts are those of the old lines. */
  lemma RebuildUndoesDiff(ops: seq<Op>, prev: seq<string>, cur: seq<string>)
    requires Valid(ops, prev, cur)
    ensures forall k :: 0 <= k < |ops| ==> Covers(ops[k], prev, cur)
    ensures var added, removed := Added(ops, prev, cur), Removed(ops, prev, cur);
      && Rebuilt(prev, added, removed, []) == cur
      && InRange(|Without(prev, LineNumbers(removed))|, SortByLine(added))
      && TextsMatch(prev, removed)
  {
    hide Covers;
    LeadsCovers(ops, prev, cur, |prev|, |cur|);
    LeadsIsUndone(ops, prev, cur, |prev|, |cur|);
    assert prev[..|prev|] == prev && cur[..|cur|] == cur;
    SortOfAscending(Added(ops, prev, cur));
    var gone := LineNumbers(Removed(ops, prev, cur));
    assert gone + LineNumbers([]) == gone;
  }

  // ----- what is recorded

  /** Line j of the new text is recorded by the opcode: it is inserted or replaces something, and is not the one old line that a
      replacement keeps. */
  predicate Adds(op: Op, prev: seq<string>, cur: seq<string>, j: int)
    requires Covers(op, prev, cur)
  {
    op.j1 <= j < op.j2 && (op.tag == Insert || (op.tag == Replace && !(j == op.j1 && op.i2 == op.i1 + 1 && prev[op.i1] == cur[op.j1])))
  }

  predicate Removes(op: Op, prev: seq<string>, cur: seq<string>, i: int)
    requires Covers(op, prev, cur)
  {
    op.i1 <= i < op.i2 && (op.tag == Delete || (op.tag == Replace && !(op.i2 == op.i1 + 1 && prev[op.i1] == cur[op.j1])))
  }

  lemma OpRecords(op: Op, prev: seq<string>, cur: seq<string>, n: int)
    requires Covers(op, prev, cur)
    ensures n in LineNumbers(AddedBy(op, prev, cur)) <==> Adds(op, prev, cur, n - 1)
    ensures n in LineNumbers(RemovedBy(op, prev, cur)) <==> Removes(op, prev, cur, n - 1)
  {
    LinesHave(cur, op.j1, op.j2, n);
    if op.j1 < op.j2 {
      LinesHave(cur, op.j1 + 1, op.j2, n);
    }
    LinesHave(prev, op.i1, op.i2, n);
    hide LineNumbers;
    assert LineNumbers([]) == {} by { NoNumbers(); }
  }

  lemma NoNumbers()
    ensures LineNumbers([]) == {}
  {
  }

  lemma LinesHave(text: seq<string>, a: nat, b: nat, n: int)
    requires a <= b <= |text|
    ensures n in LineNumbers(Lines(text, a, b)) <==> a < n <= b
  {
    if a < n <= b {
      assert Lines(text, a, b)[n - 1 - a].line == n;
    }
  }

  lemma NumbersOfBoth(x: seq<Line>, y: seq<Line>)
    ensures LineNumbers(x + y) == LineNumbers(x) + LineNumbers(y)
  {
    forall n | n in LineNumbers(x) + LineNumbers(y)
      ensures n in LineNumbers(x + y)
    {
      if k :| 0 <= k < |x| && x[k].line == n {
        assert (x + y)[k].line == n;
      } else {
        var k :| 0 <= k < |y| && y[k].line == n;
        assert (x + y)[|x| + k].line == n;
      }
    }
  }

  /** Exactly the lines that some opcode inserts, deletes or replaces are recorded, under their own numbers. */
  lemma {:induction false} RecordedIff(ops: seq<Op>, prev: seq<string>, cur: seq<string>, n: int)
    requires forall k :: 0 <= k < |ops| ==> Covers(ops[k], prev, cur)
    ensures n in LineNumbers(Added(ops, prev, cur)) <==> exists k :: 0 <= k < |ops| && Adds(ops[k], prev, cur, n - 1)
    ensures n in LineNumbers(Removed(ops, prev, cur)) <==> exists k :: 0 <= k < |ops| && Removes(ops[k], prev, cur, n - 1)
  {
    hide Covers, Adds, Removes, AddedBy, RemovedBy, LineNumbers;
    NoNumbers();
    if ops != [] {
      var m := |ops| - 1;
      var before := ops[..m];
      RecordedIff(before, prev, cur, n);
      OpRecords(ops[m], prev, cur, n);
      NumbersOfBoth(Added(before, prev, cur), AddedBy(ops[m], prev, cur));
      NumbersOfBoth(Removed(before, prev, cur), RemovedBy(ops[m], prev, cur));
      assert forall k :: 0 <= k < m ==> before[k] == ops[k];
    }
  }

  // ----- what is rebuilt from any record

  /** A changed line is removed like any other. */
  lemma ChangedIsRemoved(prev: seq<string>, added: seq<Line>, removed: seq<Line>, changed: seq<Line>)
    ensures Rebuilt(prev, added, removed, changed) == Rebuilt(prev, added, removed + changed, [])
    ensures Rebuilt(prev, added, [], changed) == Rebuilt(prev, added, changed, [])
  {
    NumbersOfBoth(removed, changed);
    hide LineNumbers;
    NoNumbers();
    assert LineNumbers(removed + changed) + {} == LineNumbers(removed) + LineNumbers(changed);
    assert {} + LineNumbers(changed) == LineNumbers(changed) + {};
  }

  /** The recorded lines with one number, in their order. */
  function WithNumber(s: seq<Line>, n: int): seq<Line> {
    if s == [] then [] else WithNumber(s[..|s| - 1], n) + IfNumber(s[|s| - 1], n)
  }

  function IfNumber(x: Line, n: int): seq<Line> {
    if x.line == n then [x] else []
  }

  predicate NotDescending(s: seq<Line>) {
    forall a, b :: 0 <= a < b < |s| ==> s[a].line <= s[b].line
  }

  lemma OneMoreNumbered(s: seq<Line>, x: Line, n: int)
    ensures WithNumber(s + [x], n) == WithNumber(s, n) + IfNumber(x, n)
  {
    assert (s + [x])[..|s|] == s;
  }

  lemma {:induction false} PlaceIsOrdered(s: seq<Line>, x: Line)
    requires NotDescending(s)
    ensures NotDescending(PlaceByLine(s, x)) && forall y :: y in PlaceByLine(s, x) ==> y in s || y == x
  {
    if s != [] && s[|s| - 1].line > x.line {
      var front, last := s[..|s| - 1], s[|s| - 1];
      PlaceIsOrdered(front, x);
      var placed := PlaceByLine(front, x);
      hide PlaceByLine;
      forall a | 0 <= a < |placed|
        ensures placed[a].line <= last.line
      {
        assert placed[a] in placed;
      }
    }
  }

  lemma ApartSwap(s: seq<Line>, x: Line, y: Line, n: int)
    requires x.line != y.line
    ensures s + IfNumber(x, n) + IfNumber(y, n) == s + IfNumber(y, n) + IfNumber(x, n)
  {
  }

  lemma PlaceBefore(s: seq<Line>, x: Line)
    requires s != [] && s[|s| - 1].line > x.line
    ensures PlaceByLine(s, x) == PlaceByLine(s[..|s| - 1], x) + [s[|s| - 1]]
  {
  }

  lemma PlaceBehind(s: seq<Line>, x: Line)
    requires s == [] || s[|s| - 1].line <= x.line
    ensures PlaceByLine(s, x) == s + [x]
  {
  }

  lemma {:induction false} PlaceIsStable(s: seq<Line>, x: Line, n: int)
    ensures WithNumber(PlaceByLine(s, x), n) == WithNumber(s, n) + IfNumber(x, n)
  {
    hide PlaceByLine, WithNumber, IfNumber;
    if s != [] && s[|s| - 1].line > x.line {
      var front, last := s[..|s| - 1], s[|s| - 1];
      PlaceIsStable(front, x, n);
      PlaceBefore(s, x);
      OneMoreNumbered(PlaceByLine(front, x), last, n);
      OneMoreNumbered(front, last, n);
      assert s == front + [last];
      ApartSwap(WithNumber(front, n), x, last, n);
    } else {
      PlaceBehind(s, x);
      OneMoreNumbered(s, x, n);
    }
  }

  /** The lines are inserted by ascending number, and those with the same number in the order in which they were recorded. */
  lemma {:induction false} SortIsStable(s: seq<Line>, n: int)
    ensures NotDescending(SortByLine(s)) && WithNumber(SortByLine(s), n) == WithNumber(s, n)
  {
    hide PlaceByLine, IfNumber, NotDescending;
    if s == [] {
      assert NotDescending([]) by { NothingDescends(); }
    } else {
      var before, x := s[..|s| - 1], s[|s| - 1];
      SortIsStable(before, n);
      PlaceIsOrdered(SortByLine(before), x);
      PlaceIsStable(SortByLine(before), x, n);
    }
  }

  lemma NothingDescends()
    ensures NotDescending([])
  {
  }

  /** Where list.insert puts a line, in range or not. */
  lemma InsertAtMeans(text: seq<string>, position: int, line: string)
    ensures 0 <= position <= |text| ==> InsertAt(text, position, line) == text[..position] + [line] + text[position..]
    ensures position > |text| ==> InsertAt(text, position, line) == text + [line]
    ensures -|text| <= position < 0 ==>
              InsertAt(text, position, line) == text[..|text| + position] + [line] + text[|text| + position..]
    ensures position < -|text| ==> InsertAt(text, position, line) == [line] + text
  {
  }
}
