/** Reading a numeral in a Markdown table cell (audit/scoring/numerals.py): the scan backwards over the
    text, held against a reading of the text as a list of lines. */
module Tables {
  import opened Options
  import opened Text
  import N = Numerals

  /* ---------- Lines in a text ---------- */

  function Lines(text: string): seq<string> { Split(text, '\n') }

  /** `text.rfind("\n", 0, pos) + 1`. */
  function LineStart(text: string, pos: nat): (i: nat)
    requires pos <= |text|
    ensures i <= pos
  {
    if pos == 0 || text[pos - 1] == '\n' then pos else LineStart(text, pos - 1)
  }

  lemma {:induction false} LineStartIs(text: string, pos: nat)
    requires pos <= |text|
    ensures var i := LineStart(text, pos);
            (i == 0 || text[i - 1] == '\n') && forall j :: i <= j < pos ==> text[j] != '\n'
  {
    if pos > 0 && text[pos - 1] != '\n' { LineStartIs(text, pos - 1); }
  }

  /** `text.find("\n", pos)`, or the end of the text. */
  function LineEnd(text: string, pos: nat): (i: nat)
    requires pos <= |text|
    ensures pos <= i <= |text| && (i == |text| || text[i] == '\n') && forall j :: pos <= j < i ==> text[j] != '\n'
    decreases |text| - pos
  {
    if pos == |text| || text[pos] == '\n' then pos else LineEnd(text, pos + 1)
  }

  function LineIndex(text: string, pos: nat): nat
    requires pos <= |text|
  {
    Count(text[..pos], '\n')
  }

  /** The lines above one that starts at `cursor`. */
  function Above(text: string, cursor: nat): seq<string>
    requires cursor <= |text|
  {
    if cursor == 0 then [] else Lines(text[..cursor - 1])
  }

  lemma {:induction false} LastLine(s: string)
    ensures Lines(s)[|Lines(s)| - 1] == s[LineStart(s, |s|)..]
    ensures Lines(s)[..|Lines(s)| - 1] == Above(s, LineStart(s, |s|))
  {
    if s != "" && s[|s| - 1] != '\n' {
      var shorter := s[..|s| - 1];
      LastLine(shorter);
      SameStart(s, shorter, |shorter|);
      assert LineStart(s, |s|) == LineStart(s, |shorter|) == LineStart(shorter, |shorter|);
      var i := LineStart(s, |s|);
      assert s[i..] == shorter[i..] + [s[|s| - 1]];
      if i > 0 { assert s[..i - 1] == shorter[..i - 1]; }
    } else if s != "" {
      assert LineStart(s, |s|) == |s|;
      assert (Lines(s[..|s| - 1]) + [""])[..|Lines(s)| - 1] == Lines(s[..|s| - 1]);
    }
  }

  lemma {:induction false} SameStart(a: string, b: string, pos: nat)
    requires pos <= |a| && pos <= |b| && a[..pos] == b[..pos]
    ensures LineStart(a, pos) == LineStart(b, pos)
  {
    if pos > 0 {
      assert a[pos - 1] == a[..pos][pos - 1] == b[pos - 1];
      assert a[..pos - 1] == a[..pos][..pos - 1] == b[..pos - 1];
      SameStart(a, b, pos - 1);
    }
  }

  /** One step of the scan: the line above the cursor, and the lines above that one. */
  lemma LineAbove(text: string, cursor: nat)
    requires 0 < cursor <= |text|
    ensures var previous := LineStart(text, cursor - 1);
            Above(text, cursor) == Above(text, previous) + [text[previous..cursor - 1]]
            && (previous == 0 <==> Above(text, previous) == [])
  {
    var s := text[..cursor - 1];
    var previous := LineStart(text, cursor - 1);
    SameStart(text, s, cursor - 1);
    LastLine(s);
    assert s[previous..] == text[previous..cursor - 1];
    if previous > 0 { assert s[..previous - 1] == text[..previous - 1]; }
    assert Lines(s) == Lines(s)[..|Lines(s)| - 1] + [Lines(s)[|Lines(s)| - 1]];
  }

  lemma {:induction false} NoneCounted(s: string, t: string)
    requires '\n' !in t
    ensures Count(s + t, '\n') == Count(s, '\n')
  {
    if t == "" {
      assert s + t == s;
    } else {
      assert (s + t)[..|s + t| - 1] == s + t[..|t| - 1];
      NoneCounted(s, t[..|t| - 1]);
    }
  }

  lemma LinesUpTo(text: string, cursor: nat)
    requires 0 < cursor <= |text| && text[cursor - 1] == '\n'
    ensures |Lines(text[..cursor - 1])| == LineIndex(text, cursor) <= |Lines(text)|
    ensures Lines(text)[..LineIndex(text, cursor)] == Lines(text[..cursor - 1])
  {
    var before := text[..cursor - 1];
    SplitPrefix(text, '\n', cursor);
    SplitCounts(before, '\n');
    assert text[..cursor][..cursor - 1] == before;
    assert Lines(text[..cursor]) == Lines(before) + [""];
  }

  lemma StartIndex(text: string, pos: nat)
    requires pos <= |text|
    ensures LineIndex(text, LineStart(text, pos)) == LineIndex(text, pos) == LineIndex(text, LineEnd(text, pos))
  {
    LineStartIs(text, pos);
    var first, end := LineStart(text, pos), LineEnd(text, pos);
    assert text[..pos] == text[..first] + text[first..pos];
    assert text[..end] == text[..pos] + text[pos..end];
    NoneCounted(text[..first], text[first..pos]);
    NoneCounted(text[..pos], text[pos..end]);
  }

  lemma NoBreakFrom(s: string, first: nat)
    requires first <= |s| && (first == 0 || s[first - 1] == '\n') && forall j :: first <= j < |s| ==> s[j] != '\n'
    ensures LineStart(s, |s|) == first
  {
    LineStartIs(s, |s|);
  }

  /** The text up to a line's end has that line as its last. */
  lemma EndsInTheLine(text: string, pos: nat)
    requires pos <= |text|
    ensures var lines := Lines(text[..LineEnd(text, pos)]);
            && |lines| == LineIndex(text, pos) + 1
            && lines[|lines| - 1] == text[LineStart(text, pos)..LineEnd(text, pos)]
  {
    LineStartIs(text, pos);
    hide LineStart, LineEnd;
    var first, end := LineStart(text, pos), LineEnd(text, pos);
    var whole := text[..end];
    assert |Lines(whole)| == LineIndex(text, pos) + 1 by {
      StartIndex(text, pos);
      SplitCounts(whole, '\n');
    }
    hide LineIndex, Lines, Above;
    LastLine(whole);
    NoBreakFrom(whole, first);
    assert whole[first..] == text[first..end];
  }

  lemma IndexInRange(text: string, pos: nat)
    requires pos <= |text|
    ensures LineIndex(text, pos) < |Lines(text)|
  {
    SplitPrefix(text, '\n', pos);
  }

  lemma IndexOfStart(text: string)
    ensures LineIndex(text, 0) == 0
  {
  }

  /** The span the code cuts out is the position's line, and the lines above it are those before it in
      the list. */
  lemma SpanIsTheLine(text: string, pos: nat)
    requires pos <= |text|
    ensures LineIndex(text, pos) < |Lines(text)|
    ensures Lines(text)[LineIndex(text, pos)] == text[LineStart(text, pos)..LineEnd(text, pos)]
    ensures Lines(text)[..LineIndex(text, pos)] == Above(text, LineStart(text, pos))
  {
    hide LineIndex, LineStart, LineEnd, Lines;
    var first, end, k := LineStart(text, pos), LineEnd(text, pos), LineIndex(text, pos);
    IndexInRange(text, pos);
    LinesAbove(text, pos);
    EndsInTheLine(text, pos);
    if end < |text| {
      StartIndexAfter(text, pos);
      assert text[..end + 1][..end] == text[..end];
      assert Lines(text)[k] == Lines(text)[..k + 1][k];
    } else {
      assert text[..end] == text;
    }
  }

  /** The lines above a position's own. */
  lemma LinesAbove(text: string, pos: nat)
    requires pos <= |text|
    ensures LineIndex(text, pos) <= |Lines(text)|
    ensures Lines(text)[..LineIndex(text, pos)] == Above(text, LineStart(text, pos))
  {
    LineStartIs(text, pos);
    hide LineIndex, LineStart, LineEnd;
    StartIndex(text, pos);
    var first := LineStart(text, pos);
    if first > 0 { LinesUpTo(text, first); } else { IndexOfStart(text); }
  }

  /** The lines up to the end of a position's own, where another follows. */
  lemma StartIndexAfter(text: string, pos: nat)
    requires pos <= |text| && LineEnd(text, pos) < |text|
    ensures var end, k := LineEnd(text, pos), LineIndex(text, pos);
            k + 1 <= |Lines(text)| && Lines(text)[..k + 1] == Lines(text[..end])
  {
    var end := LineEnd(text, pos);
    StartIndex(text, pos);
    LinesUpTo(text, end + 1);
    assert text[..end + 1][..end] == text[..end];
  }

  /* ---------- Rows, separators and headers ---------- */

  function SkipSpace(s: string): (r: string)
    ensures |r| <= |s|
  {
    if s != "" && IsSpace(s[0]) then SkipSpace(s[1..]) else s
  }

  function Skip(s: string, c: char): string { if s != "" && s[0] == c then s[1..] else s }

  predicate IsRow(line: string) { "|" <= SkipSpace(line) }

  function WithoutFirst(s: string, c: char): string {
    if s == "" then "" else if s[0] == c then s[1..] else [s[0]] + WithoutFirst(s[1..], c)
  }

  /** A text without its first bar; one that has none stays. */
  lemma {:induction false} FirstTakenOut(before: string, c: char, after: string)
    requires c !in before
    ensures WithoutFirst(before, c) == before
    ensures WithoutFirst(before + [c] + after, c) == before + after
  {
    if before == "" {
      assert (before + [c] + after)[1..] == after;
    } else {
      FirstTakenOut(before[1..], c, after);
      assert (before + [c] + after)[1..] == before[1..] + [c] + after;
    }
  }

  /** `^\s*\|?\s*:?-{2,}`, on the line without its first bar. */
  predicate IsSeparator(line: string) {
    "--" <= Skip(SkipSpace(Skip(SkipSpace(WithoutFirst(line, '|')), '|')), ':')
  }

  ghost predicate AllSpace(s: string) { forall c <- s :: IsSpace(c) }

  lemma {:induction false} SkipPast(gap: string, rest: string)
    requires AllSpace(gap) && (rest == "" || !IsSpace(rest[0]))
    ensures SkipSpace(gap + rest) == rest
  {
    if gap == "" {
      assert gap + rest == rest;
    } else {
      assert (gap + rest)[1..] == gap[1..] + rest && gap[0] in gap;
      SkipPast(gap[1..], rest);
    }
  }

  lemma {:induction false} Skipped(s: string) returns (gap: string)
    ensures AllSpace(gap) && s == gap + SkipSpace(s)
    ensures SkipSpace(s) == "" || !IsSpace(SkipSpace(s)[0])
  {
    gap := "";
    if s != "" && IsSpace(s[0]) {
      var more := Skipped(s[1..]);
      gap := [s[0]] + more;
    }
  }

  /** A line is a table row exactly when its first character that is no spacing is a bar. */
  lemma RowExactly(line: string)
    ensures IsRow(line) <==> exists gap, rest :: AllSpace(gap) && line == gap + ("|" + rest)
  {
    hide SkipSpace, AllSpace;
    if IsRow(line) {
      var gap := Skipped(line);
      assert SkipSpace(line) == "|" + SkipSpace(line)[1..];
    }
    forall gap, rest | AllSpace(gap) && line == gap + ("|" + rest) ensures IsRow(line) { SkipPast(gap, "|" + rest); }
  }

  /** What the separator pattern matches from the start of a line: spacing, a bar or none, spacing, a colon or
      none, two dashes. */
  ghost predicate Separates(s: string, gap: string, bar: string, space: string, colon: string, rest: string) {
    && s == gap + (bar + (space + (colon + ("--" + rest))))
    && AllSpace(gap) && AllSpace(space) && bar in {"", "|"} && colon in {"", ":"}
  }

  /** Without its first bar, a separator line matches the pattern, however the engine tries it. */
  lemma SeparatorExactly(line: string)
    ensures IsSeparator(line) <==>
      exists gap, bar, space, colon, rest :: Separates(WithoutFirst(line, '|'), gap, bar, space, colon, rest)
  {
    hide AllSpace, SkipSpace, Skip, Separates;
    if IsSeparator(line) {
      var gap, bar, space, colon, rest := SeparatedBy(WithoutFirst(line, '|'));
      assert Separates(WithoutFirst(line, '|'), gap, bar, space, colon, rest);
    }
    forall gap, bar, space, colon, rest | Separates(WithoutFirst(line, '|'), gap, bar, space, colon, rest)
      ensures IsSeparator(line)
    {
      SeparatedSo(WithoutFirst(line, '|'), gap, bar, space, colon, rest);
    }
  }

  lemma SeparatedBy(s: string) returns (gap: string, bar: string, space: string, colon: string, rest: string)
    requires "--" <= Skip(SkipSpace(Skip(SkipSpace(s), '|')), ':')
    ensures Separates(s, gap, bar, space, colon, rest)
  {
    hide AllSpace;
    gap := Skipped(s);
    var t := SkipSpace(s);
    bar := SkippedOne(t, '|');
    space := Skipped(Skip(t, '|'));
    var v := SkipSpace(Skip(t, '|'));
    colon := SkippedOne(v, ':');
    rest := Skip(v, ':')[2..];
    assert Skip(v, ':') == "--" + rest;
  }

  lemma SkippedOne(s: string, c: char) returns (one: string)
    ensures one in {"", [c]} && s == one + Skip(s, c)
  {
    one := if s != "" && s[0] == c then [c] else "";
  }

  lemma SeparatedSo(s: string, gap: string, bar: string, space: string, colon: string, rest: string)
    requires Separates(s, gap, bar, space, colon, rest)
    ensures "--" <= Skip(SkipSpace(Skip(SkipSpace(s), '|')), ':')
  {
    hide SkipSpace;
    var dashes := "--" + rest;
    var v := colon + dashes;
    assert Skip(v, ':') == dashes && !IsSpace(v[0]) && v[0] != '|';
    SkipPast(space, v);
    if bar == "|" {
      var after := "|" + (space + v);
      assert s == gap + after && after[1..] == space + v;
      SkipPast(gap, after);
    } else {
      assert s == (gap + space) + v;
      SkipPast(gap + space, v);
      assert v == "" + v;
      SkipPast("", v);
    }
  }

  /** The header of the table a line belongs to, from the lines above it. */
  function HeaderOf(above: seq<string>): Option<string> {
    if above == [] || !IsRow(above[|above| - 1]) then None
    else if IsSeparator(above[|above| - 1]) && |above| > 1 then Some(above[|above| - 2])
    else HeaderOf(above[..|above| - 1])
  }

  lemma HeaderStep(above: seq<string>, line: string)
    ensures HeaderOf(above + [line]) ==
              if !IsRow(line) then None
              else if IsSeparator(line) && above != [] then Some(above[|above| - 1])
              else HeaderOf(above)
    ensures HeaderOf([]).None?
  {
    hide IsRow, IsSeparator;
    assert (above + [line])[..|above|] == above;
  }

  /** What one turn of the scan decides. */
  lemma ScanStep(text: string, cursor: nat)
    requires 0 < cursor <= |text|
    ensures var start := LineStart(text, cursor - 1);
            var line := text[start..cursor - 1];
            HeaderOf(Above(text, cursor)) ==
              if !IsRow(line) then None
              else if IsSeparator(line) && start > 0 then Some(text[LineStart(text, start - 1)..start - 1])
              else HeaderOf(Above(text, start))
  {
    hide IsRow, IsSeparator, HeaderOf, Above;
    LineAbove(text, cursor);
    var start := LineStart(text, cursor - 1);
    HeaderStep(Above(text, start), text[start..cursor - 1]);
    if start > 0 { LineAbove(text, start); }
  }

  method FindHeader(text: string, lineStart: nat) returns (header: Option<string>)
    requires lineStart <= |text|
    ensures header == HeaderOf(Above(text, lineStart))
  {
    assert HeaderOf(Above(text, 0)).None?;
    var cursor: nat := lineStart;
    while cursor > 0
      invariant cursor <= lineStart && HeaderOf(Above(text, lineStart)) == HeaderOf(Above(text, cursor))
    {
      ScanStep(text, cursor);
      var previousEnd := cursor - 1;
      var previousStart := LineStart(text, previousEnd);
      var previous := text[previousStart..previousEnd];
      if !IsRow(previous) { return None; }
      if IsSeparator(previous) && previousStart > 0 {
        var headEnd := previousStart - 1;
        return Some(text[LineStart(text, headEnd)..headEnd]);
      }
      cursor := previousStart;
    }
    return None;
  }

  /** The separator is the nearest one in the unbroken run of rows above, and the header stands on it. */
  ghost predicate SeparatedAt(above: seq<string>, s: nat) {
    && 0 < s < |above| && IsSeparator(above[s])
    && (forall i :: s <= i < |above| ==> IsRow(above[i]))
    && forall i :: s < i < |above| ==> !IsSeparator(above[i])
  }

  lemma OnlySeparatedAt(above: seq<string>)
    requires above != [] && IsSeparator(above[|above| - 1])
    ensures forall s: nat :: SeparatedAt(above, s) ==> s == |above| - 1
  {
    hide IsRow, IsSeparator;
  }

  lemma PlainRow(above: seq<string>, s: nat)
    requires above != [] && IsRow(above[|above| - 1]) && (!IsSeparator(above[|above| - 1]) || |above| == 1)
    ensures SeparatedAt(above, s) <==> SeparatedAt(above[..|above| - 1], s)
  {
    hide IsRow, IsSeparator;
    var shorter := above[..|above| - 1];
    if SeparatedAt(shorter, s) {
      forall i | s <= i < |above| ensures IsRow(above[i]) { assert i < |shorter| ==> shorter[i] == above[i]; }
    }
  }

  lemma {:induction false} HeaderExactly(above: seq<string>, header: string)
    ensures HeaderOf(above) == Some(header) <==> exists s: nat :: SeparatedAt(above, s) && above[s - 1] == header
  {
    hide IsRow, IsSeparator;
    if above != [] {
      var shorter, last := above[..|above| - 1], |above| - 1;
      HeaderExactly(shorter, header);
      if !IsRow(above[last]) {
      } else if IsSeparator(above[last]) && last > 0 {
        assert SeparatedAt(above, last);
        OnlySeparatedAt(above);
      } else {
        forall s: nat ensures SeparatedAt(above, s) <==> SeparatedAt(shorter, s) { PlainRow(above, s); }
        assert forall s: nat :: SeparatedAt(shorter, s) ==> shorter[s - 1] == above[s - 1];
      }
    }
  }

  /** Inside one table body the header does not change. */
  lemma {:induction false} OneBodyOneHeader(lines: seq<string>, j: nat, k: nat)
    requires j <= k <= |lines| && forall i :: j <= i < k ==> IsRow(lines[i]) && !IsSeparator(lines[i])
    ensures HeaderOf(lines[..k]) == HeaderOf(lines[..j])
    decreases k - j
  {
    if j < k {
      OneBodyOneHeader(lines, j, k - 1);
      assert lines[..k][..k - 1] == lines[..k - 1];
    }
  }

  /* ---------- Columns ---------- */

  function Offset(pieces: seq<string>, k: nat): nat
    requires k <= |pieces|
  {
    if k == 0 then 0 else Offset(pieces, k - 1) + |pieces[k - 1]| + 1
  }

  lemma {:induction false} SameOffset(a: seq<string>, b: seq<string>, k: nat)
    requires k <= |a| && k <= |b| && a[..k] == b[..k]
    ensures Offset(a, k) == Offset(b, k)
  {
    if k > 0 {
      assert a[k - 1] == a[..k][k - 1] == b[k - 1];
      assert a[..k - 1] == a[..k][..k - 1] == b[..k - 1];
      SameOffset(a, b, k - 1);
    }
  }

  /** Piece k of a line begins at its offset and is what stands there. */
  ghost predicate Holds(line: string, k: nat, o: nat) {
    var cells := Split(line, '|');
    && k < |cells| && Offset(cells, k) <= o <= Offset(cells, k) + |cells[k]| <= |line|
    && line[Offset(cells, k)..Offset(cells, k) + |cells[k]|] == cells[k]
  }

  lemma {:induction false} LastCellHoldsTheEnd(line: string)
    ensures var n := Count(line, '|');
            Holds(line, n, |line|) && Offset(Split(line, '|'), n) + |Split(line, '|')[n]| == |line|
  {
    SplitCounts(line, '|');
    if line != "" {
      var shorter, last := line[..|line| - 1], line[|line| - 1];
      SplitCounts(shorter, '|');
      LastCellHoldsTheEnd(shorter);
      if last == '|' { EmptyCellOnTop(line); } else { LongerLastCell(line); }
    }
  }

  lemma EmptyCellOnTop(line: string)
    requires line != "" && line[|line| - 1] == '|'
    requires var fewer := Split(line[..|line| - 1], '|');
             Offset(fewer, |fewer| - 1) + |fewer[|fewer| - 1]| == |line| - 1
    ensures var cells := Split(line, '|');
            Offset(cells, |cells| - 1) == |line| && cells[|cells| - 1] == ""
  {
    var cells, fewer := Split(line, '|'), Split(line[..|line| - 1], '|');
    var n := |fewer|;
    assert cells == fewer + [""];
    hide Split;
    assert cells[..n - 1] == fewer[..n - 1] && cells[n - 1] == fewer[n - 1];
    SameOffset(cells, fewer, n - 1);
    assert Offset(cells, n) == Offset(cells, n - 1) + |cells[n - 1]| + 1;
  }

  lemma LongerLastCell(line: string)
    requires line != "" && line[|line| - 1] != '|'
    requires var shorter := line[..|line| - 1];
             var fewer := Split(shorter, '|');
             var from := Offset(fewer, |fewer| - 1);
             from + |fewer[|fewer| - 1]| == |shorter| && shorter[from..] == fewer[|fewer| - 1]
    ensures var cells := Split(line, '|');
            var from := Offset(cells, |cells| - 1);
            from + |cells[|cells| - 1]| == |line| && line[from..] == cells[|cells| - 1]
  {
    var shorter, last := line[..|line| - 1], line[|line| - 1];
    var cells, fewer := Split(line, '|'), Split(shorter, '|');
    var n := |fewer| - 1;
    assert cells == fewer[n := fewer[n] + [last]];
    hide Split;
    assert cells[..n] == fewer[..n];
    SameOffset(cells, fewer, n);
    assert line[Offset(cells, n)..] == shorter[Offset(fewer, n)..] + [last];
  }

  lemma OneMoreCharacter(line: string, k: nat)
    requires line != "" && k < |Split(line[..|line| - 1], '|')|
    ensures var cells, fewer := Split(line, '|'), Split(line[..|line| - 1], '|');
            && k < |cells| && cells[..k] == fewer[..k]
            && cells[k] == (if k < |fewer| - 1 || line[|line| - 1] == '|' then fewer[k] else fewer[k] + [line[|line| - 1]])
  {
  }

  lemma HoldsStill(line: string, k: nat, o: nat)
    requires line != "" && Holds(line[..|line| - 1], k, o)
    requires k == |Split(line[..|line| - 1], '|')| - 1 ==>
               Offset(Split(line[..|line| - 1], '|'), k) + |Split(line[..|line| - 1], '|')[k]| == |line| - 1
    ensures Holds(line, k, o)
  {
    hide Split;
    var shorter, last := line[..|line| - 1], line[|line| - 1];
    var cells, fewer := Split(line, '|'), Split(shorter, '|');
    OneMoreCharacter(line, k);
    SameOffset(cells, fewer, k);
    var from, size := Offset(fewer, k), |fewer[k]|;
    assert line[from..from + size] == shorter[from..from + size];
    if !(k < |fewer| - 1 || last == '|') {
      assert line[from..from + size + 1] == line[from..from + size] + [last];
    }
  }

  /** Counting bars up to a position gives the cell the position lies in. */
  lemma {:induction false} ColumnHoldsThePosition(line: string, o: nat)
    requires o <= |line|
    ensures Holds(line, Count(line[..o], '|'), o)
  {
    LastCellHoldsTheEnd(line);
    if o < |line| {
      var shorter := line[..|line| - 1];
      ColumnHoldsThePosition(shorter, o);
      LastCellHoldsTheEnd(shorter);
      SplitCounts(shorter, '|');
      assert shorter[..o] == line[..o];
      HoldsStill(line, Count(line[..o], '|'), o);
    } else {
      assert line[..o] == line;
    }
  }

  /* ---------- The row's label ---------- */

  /** The longest phrase the table has for a concept, by its length. */
  function LongestName(table: seq<N.Phrase>, concept: string): (n: nat)
    ensures forall p <- table :: p.concept == concept ==> |p.text| <= n
  {
    if table == [] then 0
    else
      var p, before := table[|table| - 1], LongestName(table[..|table| - 1], concept);
      assert table == table[..|table| - 1] + [p];
      if p.concept == concept && |p.text| > before then |p.text| else before
  }

  /** The fold over the first entries; names are measured over the whole table. */
  function Labelled(entries: seq<N.Phrase>, caption: string, table: seq<N.Phrase>): Option<string> {
    if entries == [] then None
    else
      var before := Labelled(entries[..|entries| - 1], caption, table);
      var p := entries[|entries| - 1];
      if Contains(caption, p.text) && (before.None? || |p.text| > LongestName(table, before.value)) then Some(p.concept)
      else before
  }

  method LabelConcept(table: seq<N.Phrase>, caption: string) returns (concept: Option<string>)
    ensures concept == Labelled(table, caption, table)
  {
    concept := None;
    for i := 0 to |table|
      invariant concept == Labelled(table[..i], caption, table)
    {
      assert table[..i + 1][..i] == table[..i];
      if Contains(caption, table[i].text) && (concept.None? || |table[i].text| > LongestName(table, concept.value)) {
        concept := Some(table[i].concept);
      }
    }
    assert table[..|table|] == table;
  }

  ghost predicate Names(table: seq<N.Phrase>, caption: string, p: N.Phrase) { p in table && Contains(caption, p.text) }

  /** The label takes the name of some phrase it contains, and no phrase it contains is longer than the
      longest name of the concept taken, which need not be the name it contains. */
  lemma {:induction false} LabelledIs(entries: seq<N.Phrase>, caption: string, table: seq<N.Phrase>)
    requires forall p <- entries :: p in table
    ensures var c := Labelled(entries, caption, table);
            && (c.Some? ==> exists p :: Names(entries, caption, p) && p.concept == c.value)
            && forall p :: Names(entries, caption, p) ==> c.Some? && |p.text| <= LongestName(table, c.value)
  {
    if entries != [] {
      var shorter, last := entries[..|entries| - 1], entries[|entries| - 1];
      assert entries == shorter + [last];
      LabelledIs(shorter, caption, table);
      assert forall p :: Names(entries, caption, p) <==> Names(shorter, caption, p) || (p == last && Contains(caption, last.text));
    }
  }

  /** A phrase of the label that no phrase of the label is longer than. */
  ghost predicate IsLongest(table: seq<N.Phrase>, caption: string, p: N.Phrase) {
    Names(table, caption, p) && forall q :: Names(table, caption, q) ==> |q.text| <= |p.text|
  }

  /** "Longest phrase wins": a label that holds a phrase is named by a longest one. */
  ghost predicate LongestWins(table: seq<N.Phrase>, caption: string) {
    var c := Labelled(table, caption, table);
    c.Some? ==> exists p :: IsLongest(table, caption, p) && p.concept == c.value
  }

  /** Once a concept is taken whose longest name is as long as any phrase to come, it stays. */
  lemma {:induction false} TakenStays(before: seq<N.Phrase>, rest: seq<N.Phrase>, caption: string, table: seq<N.Phrase>)
    requires Labelled(before, caption, table).Some?
    requires forall p :: Names(rest, caption, p) ==> |p.text| <= LongestName(table, Labelled(before, caption, table).value)
    ensures Labelled(before + rest, caption, table) == Labelled(before, caption, table)
  {
    if rest == [] {
      assert before + rest == before;
    } else {
      var shorter, last := rest[..|rest| - 1], rest[|rest| - 1];
      assert rest == shorter + [last];
      forall p | Names(shorter, caption, p) ensures Names(rest, caption, p) { }
      TakenStays(before, shorter, caption, table);
      assert (before + rest)[..|before + rest| - 1] == before + shorter;
      assert Contains(caption, last.text) ==> Names(rest, caption, last);
    }
  }

  /** The first longest phrase of a label, by its place in the table. */
  ghost predicate FirstLongestAt(table: seq<N.Phrase>, caption: string, i: nat) {
    && i < |table| && IsLongest(table, caption, table[i])
    && forall j :: 0 <= j < i ==> !IsLongest(table, caption, table[j])
  }

  /** A concept shuts out the longest phrase when it has a name as long but not in this label. */
  ghost predicate ShutsOut(table: seq<N.Phrase>, caption: string, concept: string, longest: N.Phrase) {
    && LongestName(table, concept) >= |longest.text|
    && !exists p :: IsLongest(table, caption, p) && p.concept == concept
  }

  /** For one table: the longest phrase wins exactly when what was taken before the first longest
      phrase, if anything, does not shut it out. */
  lemma LongestWinsExactly(table: seq<N.Phrase>, caption: string, i: nat)
    requires FirstLongestAt(table, caption, i)
    ensures LongestWins(table, caption) <==>
            var before := Labelled(table[..i], caption, table);
            before.None? || !ShutsOut(table, caption, before.value, table[i])
  {
    var first, q, rest := table[..i], table[i], table[i + 1..];
    var before := Labelled(first, caption, table);
    assert table == first + ([q] + rest) && table == first + [q] + rest;
    assert (first + [q])[..i] == first;
    if before.Some? && LongestName(table, before.value) >= |q.text| {
      forall p | Names([q] + rest, caption, p) ensures |p.text| <= |q.text| { assert Names(table, caption, p); }
      TakenStays(first, [q] + rest, caption, table);
    } else {
      assert Labelled(first + [q], caption, table) == Some(q.concept);
      forall p | Names(rest, caption, p) ensures |p.text| <= |q.text| { assert Names(table, caption, p); }
      assert |q.text| <= LongestName(table, q.concept);
      TakenStays(first + [q], rest, caption, table);
    }
  }

  ghost predicate SamePhrases(table: seq<N.Phrase>, other: seq<N.Phrase>) { forall p :: p in table <==> p in other }

  /** The table in some order. */
  ghost predicate Reordered(table: seq<N.Phrase>, other: seq<N.Phrase>) { multiset(table) == multiset(other) }

  lemma ReorderedIsSame(table: seq<N.Phrase>, other: seq<N.Phrase>)
    requires Reordered(table, other)
    ensures SamePhrases(table, other)
  {
    forall p ensures p in table <==> p in other { assert p in multiset(table) <==> p in multiset(other); }
  }

  lemma PutFirst(table: seq<N.Phrase>, p: N.Phrase) returns (rest: seq<N.Phrase>)
    requires p in table
    ensures Reordered(table, [p] + rest)
  {
    var i :| 0 <= i < |table| && table[i] == p;
    rest := table[..i] + table[i + 1..];
    assert table == table[..i] + ([p] + table[i + 1..]);
  }

  lemma {:induction false} LongestNameIs(table: seq<N.Phrase>, concept: string)
    ensures LongestName(table, concept) == 0
         || exists p <- table :: p.concept == concept && |p.text| == LongestName(table, concept)
  {
    if table != [] {
      var shorter, last := table[..|table| - 1], table[|table| - 1];
      assert table == shorter + [last];
      LongestNameIs(shorter, concept);
    }
  }

  lemma SameLongestName(table: seq<N.Phrase>, other: seq<N.Phrase>, concept: string)
    requires SamePhrases(table, other)
    ensures LongestName(table, concept) == LongestName(other, concept)
  {
    LongestNameIs(table, concept);
    LongestNameIs(other, concept);
  }

  lemma SameLongest(table: seq<N.Phrase>, other: seq<N.Phrase>, caption: string)
    requires SamePhrases(table, other)
    ensures forall p :: IsLongest(table, caption, p) <==> IsLongest(other, caption, p)
  {
    forall p ensures Names(table, caption, p) <==> Names(other, caption, p) { }
  }

  /** The longest phrase wins under every order of the table exactly when no concept with a phrase in the
      label shuts it out. */
  lemma LongestAlwaysWinsExactly(table: seq<N.Phrase>, caption: string, longest: N.Phrase)
    requires IsLongest(table, caption, longest)
    ensures (forall other :: Reordered(table, other) ==> LongestWins(other, caption)) <==>
            forall p :: Names(table, caption, p) ==> !ShutsOut(table, caption, p.concept, longest)
  {
    if forall p :: Names(table, caption, p) ==> !ShutsOut(table, caption, p.concept, longest) {
      forall other | Reordered(table, other) ensures LongestWins(other, caption) {
        ReorderedIsSame(table, other);
        WinsUnlessShutOut(table, other, caption, longest);
      }
    }
    forall p | Names(table, caption, p) && ShutsOut(table, caption, p.concept, longest)
      ensures exists other :: Reordered(table, other) && !LongestWins(other, caption)
    {
      var rest := PutFirst(table, p);
      ReorderedIsSame(table, [p] + rest);
      ShutOutFirst(table, [p] + rest, caption, longest);
    }
  }

  lemma WinsUnlessShutOut(table: seq<N.Phrase>, other: seq<N.Phrase>, caption: string, longest: N.Phrase)
    requires IsLongest(table, caption, longest) && SamePhrases(table, other)
    requires forall p :: Names(table, caption, p) ==> !ShutsOut(table, caption, p.concept, longest)
    ensures LongestWins(other, caption)
  {
    LabelledIs(other, caption, other);
    SameLongest(table, other, caption);
    assert Names(other, caption, longest);
    var c := Labelled(other, caption, other).value;
    SameLongestName(table, other, c);
    var p :| Names(other, caption, p) && p.concept == c;
    assert Names(table, caption, p);
    var q :| IsLongest(table, caption, q) && q.concept == c;
    assert IsLongest(other, caption, q);
  }

  /** The phrase that shuts the longest out, put first, names the label. */
  lemma ShutOutFirst(table: seq<N.Phrase>, other: seq<N.Phrase>, caption: string, longest: N.Phrase)
    requires other != [] && SamePhrases(table, other)
    requires IsLongest(table, caption, longest) && Names(table, caption, other[0])
    requires ShutsOut(table, caption, other[0].concept, longest)
    ensures !LongestWins(other, caption)
  {
    var p, rest := other[0], other[1..];
    assert other == [p] + rest;
    SameLongest(table, other, caption);
    SameLongestName(table, other, p.concept);
    assert Labelled([p], caption, other) == Some(p.concept) by { assert [p][..0] == []; }
    forall q | Names(rest, caption, q) ensures |q.text| <= |longest.text| { assert Names(table, caption, q); }
    TakenStays([p], rest, caption, other);
  }

  /** It does not always: a concept taken by a short name is defended by its long one. */
  lemma DefendedByTheLongName(long: N.Phrase, short: N.Phrase, other: N.Phrase, caption: string)
    requires long.concept == short.concept != other.concept && |short.text| < |other.text| <= |long.text|
    requires !Contains(caption, long.text) && Contains(caption, short.text) && Contains(caption, other.text)
    ensures Labelled([long, short, other], caption, [long, short, other]) == Some(short.concept)
    ensures !LongestWins([long, short, other], caption)
  {
    var table := [long, short, other];
    assert table[..2] == [long, short] && [long, short][..1] == [long] && [long][..0] == [];
    assert Labelled([long], caption, table).None?;
    assert Labelled([long, short], caption, table) == Some(short.concept);
    assert long in table;
    assert Names(table, caption, other);
  }

  lemma LongestPhraseExample()
    ensures Contains("fcf at wacc", "fcf") && Contains("fcf at wacc", "wacc")
    ensures !Contains("fcf at wacc", "free cash flow")
    ensures var table := [N.Phrase("free cash flow", "free_cash_flow"), N.Phrase("fcf", "free_cash_flow"),
                          N.Phrase("wacc", "wacc")];
            Labelled(table, "fcf at wacc", table) == Some("free_cash_flow") && !LongestWins(table, "fcf at wacc")
  {
    hide LongestWins;
    var caption := "fcf at wacc";
    FindIsFirst(caption, "free cash flow");
    FindIsFirst(caption, "fcf");
    FindIsFirst(caption, "wacc");
    assert caption[0..] == caption && At(caption, "fcf", 0);
    assert caption[7..] == "wacc" && At(caption, "wacc", 7);
    var long, short := N.Phrase("free cash flow", "free_cash_flow"), N.Phrase("fcf", "free_cash_flow");
    DefendedByTheLongName(long, short, N.Phrase("wacc", "wacc"), caption);
  }

  /* ---------- The hints ---------- */

  /** The word patterns, as predicates, and the period reader. */
  datatype Reader = Reader(
    table: seq<N.Phrase>, blocking: seq<string>,
    qualified: string -> bool, change: string -> bool, ratio: string -> bool,
    period: (string, string) -> Option<string>)

  datatype Hints = NotATable | QualifiedCell | Hints(concept: Option<string>, period: Option<string>)

  /** The header cell over a column, when the header has that many. */
  function HeaderCell(header: Option<string>, column: nat): Option<string> {
    if header.Some? && column < |Split(header.value, '|')| then Some(Split(header.value, '|')[column]) else None
  }

  function Label(line: string): string {
    var cells := Split(line, '|');
    if |cells| > 1 then LowerAll(cells[1]) else ""
  }

  /** What stands between two bars, or between a bar and an end of the line, is the cell of its number. */
  lemma CellBetweenBars(before: string, cell: string, after: string)
    requires '|' !in cell && (before == "" || before[|before| - 1] == '|') && (after == "" || after[0] == '|')
    ensures var cells := Split(before + cell + after, '|');
            Count(before, '|') < |cells| && cells[Count(before, '|')] == cell
  {
    var line := before + cell + after;
    SplitKeeps(before + cell, after);
    CellAtTheEnd(before, cell);
    assert line == (before + cell) + after;
  }

  /** More text behind a bar adds cells and changes none. */
  lemma {:induction false} SplitKeeps(s: string, after: string)
    requires after == "" || after[0] == '|'
    ensures Split(s, '|') <= Split(s + after, '|')
  {
    if after == "" {
      assert s + after == s;
    } else {
      var shorter := after[..|after| - 1];
      assert (s + after)[..|s + after| - 1] == s + shorter;
      SplitKeeps(s, shorter);
      if shorter != "" { MoreCells(s, shorter); }
    }
  }

  lemma {:induction false} MoreCells(s: string, after: string)
    requires after != "" && after[0] == '|'
    ensures |Split(s + after, '|')| > |Split(s, '|')|
  {
    var shorter := after[..|after| - 1];
    assert (s + after)[..|s + after| - 1] == s + shorter;
    if shorter == "" { assert s + shorter == s; } else { MoreCells(s, shorter); }
  }

  lemma {:induction false} CellAtTheEnd(before: string, cell: string)
    requires '|' !in cell && (before == "" || before[|before| - 1] == '|')
    ensures |Split(before + cell, '|')| == Count(before, '|') + 1
    ensures Split(before + cell, '|')[Count(before, '|')] == cell
  {
    if cell == "" {
      assert before + cell == before;
      SplitCounts(before, '|');
      assert before != "" ==> before == before[..|before| - 1] + ['|'];
    } else {
      var shorter := cell[..|cell| - 1];
      assert (before + cell)[..|before + cell| - 1] == before + shorter;
      CellAtTheEnd(before, shorter);
      assert cell == shorter + [cell[|cell| - 1]];
    }
  }

  /** A row's label is what stands between its first bar and the next, in lower case; a column's header cell is
      what stands in the header after as many bars. */
  lemma LabelAndHeaderCell(before: string, cell: string, after: string)
    requires '|' !in cell && (before == "" || before[|before| - 1] == '|') && (after == "" || after[0] == '|')
    ensures Count(before, '|') == 1 ==> Label(before + cell + after) == LowerAll(cell)
    ensures HeaderCell(Some(before + cell + after), Count(before, '|')) == Some(cell)
  {
    CellBetweenBars(before, cell, after);
  }

  /** A line without a bar has no label, and a header no cell past its last. */
  lemma NoCell(line: string, column: nat)
    ensures Count(line, '|') == 0 ==> Label(line) == ""
    ensures column > Count(line, '|') ==> HeaderCell(Some(line), column).None?
  {
    SplitCounts(line, '|');
  }

  function PeriodOf(r: Reader, head: Option<string>, line: string, o: nat): Option<string>
    requires o <= |line|
  {
    var own := if head.Some? then r.period(head.value, "") else None;
    if own.Some? then own
    else
      var before := r.period(line[..o], "");
      if before.Some? then before else r.period("", line)
  }

  /** The period is the header cell's own, then the text's before the numeral, then the whole row's. */
  lemma PeriodExactly(r: Reader, head: Option<string>, line: string, o: nat, p: string)
    requires o <= |line|
    ensures PeriodOf(r, head, line, o) == Some(p) <==>
      || (exists cell :: head == Some(cell) && r.period(cell, "") == Some(p))
      || ((forall cell :: head == Some(cell) ==> r.period(cell, "") == None)
          && r.period(line[..o], "") in {None, Some(p)}
          && (r.period(line[..o], "") == None ==> r.period("", line) == Some(p)))
  {
  }

  /** A cell of a line, under a header. */
  function HintsUnder(r: Reader, header: Option<string>, line: string, o: nat): Hints
    requires o <= |line|
  {
    var head := HeaderCell(header, Count(line[..o], '|'));
    var concept := Labelled(r.table, Label(line), r.table);
    var kept := if exists b <- r.blocking :: Contains(Label(line), b) then None else concept;
    if !IsRow(line) then NotATable
    else if head.Some? && r.qualified(head.value) then QualifiedCell
    else if kept.Some? && (r.change(Label(line)) || r.ratio(Label(line))) then QualifiedCell
    else Hints(kept, PeriodOf(r, head, line, o))
  }

  /** The reading of the text as lines: line k, at offset o in it. */
  function HintsAt(r: Reader, lines: seq<string>, k: nat, o: nat): Hints
    requires k < |lines| && o <= |lines[k]|
  {
    HintsUnder(r, HeaderOf(lines[..k]), lines[k], o)
  }

  method TableHints(r: Reader, text: string, start: nat) returns (hints: Hints)
    requires start <= |text|
    ensures LineIndex(text, start) < |Lines(text)|
    ensures start - LineStart(text, start) <= |Lines(text)[LineIndex(text, start)]|
    ensures hints == HintsAt(r, Lines(text), LineIndex(text, start), start - LineStart(text, start))
  {
    hide HintsUnder, IsRow;
    SpanIsTheLine(text, start);
    var lineStart := LineStart(text, start);
    var lineEnd := LineEnd(text, start);
    var line := text[lineStart..lineEnd];
    if !IsRow(line) {
      NoHintsOutsideATable(r, HeaderOf(Above(text, lineStart)), line, start - lineStart);
      return NotATable;
    }
    var header := FindHeader(text, lineStart);
    hints := ReadCell(r, header, line, start - lineStart);
  }

  lemma NoHintsOutsideATable(r: Reader, header: Option<string>, line: string, o: nat)
    requires o <= |line| && !IsRow(line)
    ensures HintsUnder(r, header, line, o) == NotATable
  {
  }

  method ReadCell(r: Reader, header: Option<string>, line: string, o: nat) returns (hints: Hints)
    requires o <= |line| && IsRow(line)
    ensures hints == HintsUnder(r, header, line, o)
  {
    hide Labelled, PeriodOf, HeaderCell, Contains;
    var column := Count(line[..o], '|');
    var caption := Label(line);
    var head := HeaderCell(header, column);
    if head.Some? && r.qualified(head.value) { return QualifiedCell; }
    var concept := LabelConcept(r.table, caption);
    if concept.Some? && exists b <- r.blocking :: Contains(caption, b) { concept := None; }
    if concept.Some? && (r.change(caption) || r.ratio(caption)) { return QualifiedCell; }
    var period := PeriodOf(r, head, line, o);
    return Hints(concept, period);
  }

  /** Two numerals in one column of one table body are read under one header cell. So a qualified column
      qualifies both, and a column that names a period gives it to both, whatever their rows say. */
  lemma OneColumnOneHeader(r: Reader, lines: seq<string>, j: nat, o: nat, k: nat, p: nat)
    requires j <= k < |lines| && o <= |lines[j]| && p <= |lines[k]|
    requires forall i :: j <= i <= k ==> IsRow(lines[i]) && (i < k ==> !IsSeparator(lines[i]))
    requires Count(lines[j][..o], '|') == Count(lines[k][..p], '|')
    ensures var a, b := HintsAt(r, lines, j, o), HintsAt(r, lines, k, p);
            var head := HeaderCell(HeaderOf(lines[..j]), Count(lines[j][..o], '|'));
            && (head.Some? && r.qualified(head.value) ==> a == QualifiedCell && b == QualifiedCell)
            && (head.Some? && r.period(head.value, "").Some? && a.Hints? && b.Hints? ==>
                  a.period == b.period == r.period(head.value, ""))
  {
    hide HeaderOf, Label, Labelled, Contains, IsSeparator;
    OneBodyOneHeader(lines, j, k);
  }
}
