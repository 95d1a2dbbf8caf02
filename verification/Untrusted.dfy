/** Framing untrusted text: the escaping of the delimiter, and a reader that recovers the frame.

    The delimiter pattern is `</?\s*untrusted_source\b[^>]*>`, any casing. `IsDelimiter` is what
    the pattern means; `MatchLength` is how a regular-expression engine finds it at one position;
    `Neutralise` is the leftmost, non-overlapping substitution. */
module Untrusted {
  import opened Options
  import opened Text

  const OPEN := "untrusted_source"
  const CLOSE := "\n</untrusted_source>"

  /* ---------- The alphabet the pattern speaks about (ASCII) ---------- */

  predicate IsWord(c: char) {
    'a' <= c <= 'z' || 'A' <= c <= 'Z' || '0' <= c <= '9' || c == '_'
  }

  predicate NamesOpen(s: string) {
    |s| == |OPEN| && forall i :: 0 <= i < |s| ==> Lower(s[i]) == OPEN[i]
  }

  /* ---------- What the pattern means ---------- */

  ghost predicate DelimiterParts(w: string, slash: string, gap: string, name: string, rest: string) {
    && w == "<" + slash + gap + name + rest + ">"
    && (slash == "" || slash == "/")
    && (forall c <- gap :: IsSpace(c))
    && NamesOpen(name)
    && '>' !in rest
    && (rest == "" || !IsWord(rest[0]))
  }

  /** `w` is, from its first character to its last, one match of the delimiter pattern. */
  ghost predicate IsDelimiter(w: string) {
    exists slash, gap, name, rest :: DelimiterParts(w, slash, gap, name, rest)
  }

  /** No stretch of `s` matches the delimiter pattern. */
  ghost predicate DelimiterFree(s: string) {
    forall i, j :: 0 <= i <= j <= |s| ==> !IsDelimiter(s[i..j])
  }

  /* ---------- How it is found ---------- */

  function SpaceRun(s: string): (n: nat)
    ensures n <= |s|
    ensures forall i :: 0 <= i < n ==> IsSpace(s[i])
    ensures n < |s| ==> !IsSpace(s[n])
  {
    if s == "" || !IsSpace(s[0]) then 0 else 1 + SpaceRun(s[1..])
  }

  function IndexOf(s: string, c: char): (n: Option<nat>)
    ensures n.None? <==> c !in s
    ensures n.Some? ==> n.value < |s| && s[n.value] == c && c !in s[..n.value]
  {
    if s == "" then None
    else if s[0] == c then Some(0)
    else match IndexOf(s[1..], c)
      case None => None
      case Some(n) => assert s[..n + 1] == [s[0]] + s[1..][..n]; Some(n + 1)
  }

  /** Length of `<`, the optional slash, the spaces and the name at the start of `s`. */
  function HeadLength(s: string): (n: Option<nat>)
    ensures n.Some? ==> |OPEN| < n.value <= |s|
  {
    if s == "" || s[0] != '<' then None else
      var a := if |s| > 1 && s[1] == '/' then 2 else 1;
      var b := a + SpaceRun(s[a..]);
      if b + |OPEN| <= |s| && NamesOpen(s[b..b + |OPEN|]) then Some(b + |OPEN|) else None
  }

  /** The length of the match that starts at the first character of `s`, if there is one. */
  function MatchLength(s: string): (n: Option<nat>)
    ensures n.Some? ==> 0 < n.value <= |s|
  {
    match HeadLength(s)
    case None => None
    case Some(h) =>
      if h < |s| && IsWord(s[h]) then None
      else match IndexOf(s[h..], '>')
        case None => None
        case Some(k) => Some(h + k + 1)
  }

  lemma HeadAt(s: string, a: nat, b: nat)
    requires s != "" && s[0] == '<' && a == (if |s| > 1 && s[1] == '/' then 2 else 1)
    requires b == a + SpaceRun(s[a..]) && b + |OPEN| <= |s| && NamesOpen(s[b..b + |OPEN|])
    ensures HeadLength(s) == Some(b + |OPEN|)
  {
    hide NamesOpen;
  }

  lemma HeadOfParts(s: string, slash: string, gap: string, name: string, tail: string)
    requires s == "<" + slash + gap + name + tail
    requires slash == "" || slash == "/"
    requires forall c <- gap :: IsSpace(c)
    requires NamesOpen(name)
    ensures HeadLength(s) == Some(1 + |slash| + |gap| + |name|)
    ensures s[1 + |slash| + |gap| + |name|..] == tail
  {
    assert !IsSpace(name[0]) && name[0] != '/' && |name| == |OPEN| by { assert Lower(name[0]) == 'u'; }
    hide NamesOpen, HeadLength;
    var a := 1 + |slash|;
    var b := a + |gap|;
    var after := gap + (name + tail);
    assert s == ("<" + slash) + after;
    assert s[a..] == after && s[b..b + |OPEN|] == name;
    SpaceRunExact(gap, name + tail);
    if slash == "" {
      assert s[1] == after[0];
      if gap != "" { assert gap[0] in gap; }
    }
    HeadAt(s, a, b);
  }

  lemma {:induction false} SpaceRunExact(gap: string, tail: string)
    requires forall c <- gap :: IsSpace(c)
    requires tail != "" && !IsSpace(tail[0])
    ensures SpaceRun(gap + tail) == |gap|
  {
    if gap == "" {
      assert gap + tail == tail;
    } else {
      assert (gap + tail)[1..] == gap[1..] + tail;
      SpaceRunExact(gap[1..], tail);
    }
  }

  lemma PartsOfHead(s: string) returns (slash: string, gap: string, name: string, tail: string)
    requires HeadLength(s).Some?
    ensures s == "<" + slash + gap + name + tail
    ensures slash == "" || slash == "/"
    ensures forall c <- gap :: IsSpace(c)
    ensures NamesOpen(name)
    ensures HeadLength(s) == Some(1 + |slash| + |gap| + |name|)
    ensures tail == s[HeadLength(s).value..]
  {
    hide NamesOpen;
    var a := if |s| > 1 && s[1] == '/' then 2 else 1;
    var b := a + SpaceRun(s[a..]);
    slash, gap, name, tail := s[1..a], s[a..b], s[b..b + |OPEN|], s[b + |OPEN|..];
    assert forall c <- gap :: IsSpace(c) by {
      forall i | 0 <= i < |gap| ensures IsSpace(gap[i]) { assert gap[i] == s[a..][i]; }
    }
  }

  lemma FoundMeansDelimiter(s: string)
    requires MatchLength(s).Some?
    ensures IsDelimiter(s[..MatchLength(s).value])
  {
    hide HeadLength, NamesOpen;
    var n := MatchLength(s).value;
    var slash, gap, name, tail := PartsOfHead(s);
    var k := IndexOf(tail, '>').value;
    assert tail[..k + 1] == tail[..k] + ">";
    assert s[..n] == "<" + slash + gap + name + tail[..k + 1];
    assert s[..n] == "<" + slash + gap + name + tail[..k] + ">";
    assert DelimiterParts(s[..n], slash, gap, name, tail[..k]);
  }

  lemma DelimiterIsFound(s: string, n: nat)
    requires n <= |s| && IsDelimiter(s[..n])
    ensures MatchLength(s) == Some(n)
  {
    hide HeadLength, NamesOpen;
    var slash, gap, name, rest :| DelimiterParts(s[..n], slash, gap, name, rest);
    Regrouped("<" + slash + gap + name, rest, s, n);
    FoundAt(s, slash, gap, name, rest, s[n..]);
  }

  lemma FoundAt(s: string, slash: string, gap: string, name: string, rest: string, after: string)
    requires s == "<" + slash + gap + name + (rest + ">" + after)
    requires (slash == "" || slash == "/") && (forall c <- gap :: IsSpace(c)) && NamesOpen(name)
    requires '>' !in rest && (rest == "" || !IsWord(rest[0]))
    ensures MatchLength(s) == Some(1 + |slash| + |gap| + |name| + |rest| + 1)
  {
    hide HeadLength, NamesOpen, MatchLength;
    var tail, h := rest + ">" + after, 1 + |slash| + |gap| + |name|;
    HeadOfParts(s, slash, gap, name, tail);
    assert tail[0] == if rest == "" then '>' else rest[0];
    assert s[h..][0] == tail[0];
    IndexExact(rest, '>', after);
    MatchAt(s, h, |rest|);
  }

  lemma MatchAt(s: string, h: nat, k: nat)
    requires HeadLength(s) == Some(h) && h < |s| && !IsWord(s[h]) && IndexOf(s[h..], '>') == Some(k)
    ensures MatchLength(s) == Some(h + k + 1)
  {
    hide HeadLength;
  }

  lemma Regrouped(head: string, rest: string, s: string, n: nat)
    requires n <= |s| && s[..n] == head + rest + ">"
    ensures s == head + (rest + ">" + s[n..])
  {
    assert s == s[..n] + s[n..];
  }

  /** The engine's answer is the pattern's meaning: a match of length `n` is found at the start
      of `s` exactly when the first `n` characters are a delimiter, so at most one `n` works. */
  lemma MatchIsDelimiter(s: string, n: nat)
    requires n <= |s|
    ensures MatchLength(s) == Some(n) <==> IsDelimiter(s[..n])
  {
    if MatchLength(s) == Some(n) { FoundMeansDelimiter(s); }
    if IsDelimiter(s[..n]) { DelimiterIsFound(s, n); }
  }

  lemma {:induction false} IndexExact(before: string, c: char, after: string)
    requires c !in before
    ensures IndexOf(before + [c] + after, c) == Some(|before|)
  {
    if before != "" {
      IndexExact(before[1..], c, after);
      assert (before + [c] + after)[1..] == before[1..] + [c] + after;
      assert before[0] in before;
    }
  }

  /* ---------- The substitution ---------- */

  function EscapeChar(c: char): string {
    if c == '<' then "&lt;" else if c == '>' then "&gt;" else [c]
  }

  function Escape(s: string): (e: string)
    ensures '<' !in e && '>' !in e
    ensures s != "" ==> e != ""
  {
    if s == "" then "" else EscapeChar(s[0]) + Escape(s[1..])
  }

  /** Leftmost, non-overlapping: at each position either a whole match is escaped and skipped, or
      one character is copied. */
  function Neutralise(s: string): string
    decreases |s|
  {
    if s == "" then ""
    else match MatchLength(s)
      case Some(n) => Escape(s[..n]) + Neutralise(s[n..])
      case None => [s[0]] + Neutralise(s[1..])
  }

  lemma FirstCharacter(s: string)
    ensures s == "" <==> Neutralise(s) == ""
    ensures s != "" ==> Neutralise(s)[0] == (if MatchLength(s).Some? then '&' else s[0])
    ensures MatchLength(s).Some? ==> s[0] == '<'
  {
    if MatchLength(s).Some? {
      var m := s[..MatchLength(s).value];
      assert Escape(m) == "&lt;" + Escape(m[1..]);
    }
  }

  lemma CopyStep(s: string)
    requires s != "" && Neutralise(s)[0] != '&'
    ensures Neutralise(s) == [s[0]] + Neutralise(s[1..])
  {
    FirstCharacter(s);
  }

  /** Up to the first ampersand, the output is the input copied. */
  lemma {:induction false} CopiedUpTo(s: string, k: nat)
    requires k <= |Neutralise(s)|
    requires forall i :: 0 <= i < k ==> Neutralise(s)[i] != '&'
    ensures k <= |s| && Neutralise(s) == s[..k] + Neutralise(s[k..])
    decreases k
  {
    if k == 0 {
      assert s[..0] == "" && s[0..] == s;
    } else {
      CopyStep(s);
      var rest := Neutralise(s[1..]);
      forall i | 0 <= i < k - 1 ensures rest[i] != '&' { assert rest[i] == Neutralise(s)[i + 1]; }
      CopiedUpTo(s[1..], k - 1);
      Regroup(s, k, Neutralise(s[1..][k - 1..]));
    }
  }

  lemma Regroup(s: string, k: nat, after: string)
    requires 0 < k <= |s|
    ensures [s[0]] + (s[1..][..k - 1] + after) == s[..k] + after
    ensures s[1..][k - 1..] == s[k..]
  {
    assert s[..k] == [s[0]] + s[1..][..k - 1];
  }

  lemma {:induction false} KeepsNoNewClose(s: string)
    requires '>' in Neutralise(s)
    ensures '>' in s
    decreases |s|
  {
    hide MatchLength;
    if s != "" {
      match MatchLength(s)
      case Some(n) =>
        assert s == s[..n] + s[n..];
        if '>' !in s[n..] { KeepsNoNewClose(s[n..]); }
      case None =>
        assert s == [s[0]] + s[1..];
        if s[0] != '>' { KeepsNoNewClose(s[1..]); }
    }
  }

  lemma HeadHasNoAmpersand(s: string)
    requires HeadLength(s).Some?
    ensures forall i :: 0 <= i < HeadLength(s).value ==> s[i] != '&'
  {
    hide HeadLength;
    var slash, gap, name, tail := PartsOfHead(s);
    assert Lower('&') == '&';
    forall i | 0 <= i < HeadLength(s).value ensures s[i] != '&' {
      var b := 1 + |slash| + |gap|;
      if i >= b { assert s[i] == name[i - b]; }
      else if i > |slash| { assert s[i] == gap[i - 1 - |slash|] && s[i] in gap; }
    }
  }

  lemma HeadComesFrom(s: string, out: string)
    requires s != "" && out == [s[0]] + Neutralise(s[1..])
    requires HeadLength(out).Some?
    ensures HeadLength(s) == HeadLength(out)
    ensures out[HeadLength(out).value..] == Neutralise(s[HeadLength(out).value..])
  {
    hide HeadLength, Neutralise;
    var h, rest := HeadLength(out).value, Neutralise(s[1..]);
    HeadHasNoAmpersand(out);
    forall i | 0 <= i < h - 1 ensures rest[i] != '&' { assert out[i + 1] == rest[i]; }
    CopiedUpTo(s[1..], h - 1);
    Regroup(s, h, Neutralise(s[1..][h - 1..]));
    var after := Neutralise(s[h..]);
    assert out == s[..h] + after;
    Beyond(s[..h], after, h);
    HeadSurvives(s, h);
  }

  /** The heart of the argument: a `<` the scan passed over starts no match in the output either,
      whatever was escaped after it. */
  lemma PassedOverStaysUnmatched(s: string, out: string)
    requires s != "" && MatchLength(s).None?
    requires out == [s[0]] + Neutralise(s[1..])
    ensures MatchLength(out).None?
  {
    if HeadLength(out).Some? {
      HeadComesFrom(s, out);
      var left := s[HeadLength(out).value..];
      FirstCharacter(left);
      if '>' in Neutralise(left) { KeepsNoNewClose(left); }
    }
  }

  lemma HeadSurvives(s: string, h: nat)
    requires h <= |s|
    requires HeadLength(s[..h] + Neutralise(s[h..])) == Some(h)
    ensures HeadLength(s) == Some(h)
  {
    hide HeadLength, NamesOpen, Neutralise;
    var slash, gap, name, tail := PartsOfHead(s[..h] + Neutralise(s[h..]));
    assert s[..h] == (s[..h] + Neutralise(s[h..]))[..h] == "<" + slash + gap + name;
    assert s == "<" + slash + gap + name + s[h..];
    HeadOfParts(s, slash, gap, name, s[h..]);
  }

  lemma EscapedUnmatched(s: string, n: nat, after: string, i: nat)
    requires n <= |s| && i < |Escape(s[..n])|
    ensures MatchLength((Escape(s[..n]) + after)[i..]).None?
  {
    hide MatchLength;
    var e := Escape(s[..n]);
    assert (e + after)[i..][0] == e[i];
    FirstCharacter((e + after)[i..]);
  }

  lemma Beyond(a: string, b: string, i: nat)
    requires |a| <= i <= |a + b|
    ensures (a + b)[i..] == b[i - |a|..]
  {
  }

  lemma {:induction false} UnmatchedAt(s: string, i: nat)
    requires i <= |Neutralise(s)|
    ensures MatchLength(Neutralise(s)[i..]).None?
    decreases |s|
  {
    var out := Neutralise(s);
    if s == "" {
    } else {
      hide MatchLength;
      match MatchLength(s)
      case Some(n) =>
        var e := Escape(s[..n]);
        if i < |e| {
          EscapedUnmatched(s, n, Neutralise(s[n..]), i);
        } else {
          Beyond(e, Neutralise(s[n..]), i);
          UnmatchedAt(s[n..], i - |e|);
        }
      case None =>
        if i == 0 {
          assert out[0..] == out;
          PassedOverStaysUnmatched(s, out);
        } else {
          Beyond([s[0]], Neutralise(s[1..]), i);
          UnmatchedAt(s[1..], i - 1);
        }
    }
  }

  /** Nothing in the output matches the delimiter pattern, at any position and any length. */
  lemma NeutraliseLeavesNoDelimiter(s: string)
    ensures DelimiterFree(Neutralise(s))
  {
    hide MatchLength, IsDelimiter, Neutralise;
    var out := Neutralise(s);
    forall i, j | 0 <= i <= j <= |out| ensures !IsDelimiter(out[i..j]) {
      UnmatchedAt(s, i);
      MatchIsDelimiter(out[i..], j - i);
      assert out[i..][..j - i] == out[i..j];
    }
  }

  lemma MatchBreaksFreedom(s: string)
    requires DelimiterFree(s)
    ensures MatchLength(s).None?
  {
    if MatchLength(s).Some? {
      assert s[0..MatchLength(s).value] == s[..MatchLength(s).value];
      MatchIsDelimiter(s, MatchLength(s).value);
    }
  }

  lemma {:induction false} NeutraliseFixes(s: string)
    requires DelimiterFree(s)
    ensures Neutralise(s) == s
  {
    if s != "" {
      MatchBreaksFreedom(s);
      var tail := s[1..];
      forall i, j | 0 <= i <= j <= |tail| ensures !IsDelimiter(tail[i..j]) {
        assert tail[i..j] == s[i + 1..j + 1];
      }
      NeutraliseFixes(tail);
    }
  }

  /** Exactly the texts without a delimiter pass unchanged. */
  lemma UnchangedExactlyWhenFree(s: string)
    ensures Neutralise(s) == s <==> DelimiterFree(s)
  {
    NeutraliseLeavesNoDelimiter(s);
    if DelimiterFree(s) { NeutraliseFixes(s); }
  }

  lemma NeutraliseIsIdempotent(s: string)
    ensures Neutralise(Neutralise(s)) == Neutralise(s)
  {
    NeutraliseLeavesNoDelimiter(s);
    NeutraliseFixes(Neutralise(s));
  }

  /* ---------- Nothing is deleted ---------- */

  /** Reading `&lt;` and `&gt;` back as angle brackets, left to right. */
  function Unescape(s: string): string {
    if s == "" then ""
    else if "&lt;" <= s then "<" + Unescape(s[4..])
    else if "&gt;" <= s then ">" + Unescape(s[4..])
    else [s[0]] + Unescape(s[1..])
  }

  /** `s` with the marked characters escaped. */
  function EscapeMarked(s: string, marks: seq<bool>): string
    requires |marks| == |s|
  {
    if s == "" then ""
    else (if marks[0] then EscapeChar(s[0]) else [s[0]]) + EscapeMarked(s[1..], marks[1..])
  }

  lemma {:induction false} EscapeIsMarked(s: string, t: string, marks: seq<bool>)
    requires |marks| == |t|
    ensures EscapeMarked(s + t, seq(|s|, _ => true) + marks) == Escape(s) + EscapeMarked(t, marks)
  {
    var all := seq(|s|, _ => true) + marks;
    if s == "" {
      assert s + t == t && all == marks;
    } else {
      assert (s + t)[1..] == s[1..] + t;
      assert all[1..] == seq(|s[1..]|, _ => true) + marks;
      EscapeIsMarked(s[1..], t, marks);
    }
  }

  lemma MarkedMatch(s: string, n: nat, rest: seq<bool>)
    requires n <= |s| && |rest| == |s[n..]|
    ensures EscapeMarked(s, seq(|s[..n]|, _ => true) + rest) == Escape(s[..n]) + EscapeMarked(s[n..], rest)
  {
    EscapeIsMarked(s[..n], s[n..], rest);
    assert s == s[..n] + s[n..];
  }

  lemma {:induction false} NeutraliseIsMarked(s: string) returns (marks: seq<bool>)
    ensures |marks| == |s| && Neutralise(s) == EscapeMarked(s, marks)
    decreases |s|
  {
    hide MatchLength;
    if s == "" {
      marks := [];
    } else {
      match MatchLength(s)
      case Some(n) =>
        var rest := NeutraliseIsMarked(s[n..]);
        marks := seq(|s[..n]|, _ => true) + rest;
        MarkedMatch(s, n, rest);
      case None =>
        var rest := NeutraliseIsMarked(s[1..]);
        marks := [false] + rest;
        assert marks[1..] == rest;
    }
  }

  lemma {:induction false} MarkedLookahead(s: string, marks: seq<bool>, word: string)
    requires |marks| == |s|
    requires forall c <- word :: c != '&' && c != '<' && c != '>'
    ensures word <= EscapeMarked(s, marks) <==> word <= s
    ensures word <= s ==> EscapeMarked(s, marks)[|word|..] == EscapeMarked(s[|word|..], marks[|word|..])
  {
    if word == "" || s == "" {
      assert s[0..] == s && marks[0..] == marks;
    } else {
      var out := EscapeMarked(s, marks);
      var rest := EscapeMarked(s[1..], marks[1..]);
      assert word[0] in word;
      assert word == [word[0]] + word[1..];
      forall c | c in word[1..] ensures c != '&' && c != '<' && c != '>' { assert c in word; }
      MarkedLookahead(s[1..], marks[1..], word[1..]);
      if s[0] == word[0] {
        assert out == [s[0]] + rest;
        assert out[1..] == rest;
        if word[1..] <= rest { assert out[..|word|] == [s[0]] + rest[..|word| - 1]; }
        if word <= out { assert rest[..|word| - 1] == out[..|word|][1..]; }
        if word <= s {
          assert s[1..][|word| - 1..] == s[|word|..];
          assert marks[1..][|word| - 1..] == marks[|word|..];
          assert out[|word|..] == rest[|word| - 1..];
        }
        if word[1..] <= s[1..] { assert s[..|word|] == [s[0]] + s[1..][..|word| - 1]; }
        if word <= s { assert s[1..][..|word| - 1] == s[..|word|][1..]; }
      } else {
        assert out[0] != word[0];
      }
    }
  }

  /** Escaping any angle brackets anywhere is undone by reading the escapes back. */
  lemma {:induction false} UnescapeUndoesMarks(s: string, marks: seq<bool>)
    requires |marks| == |s|
    ensures Unescape(EscapeMarked(s, marks)) == Unescape(s)
    decreases |s|
  {
    if s != "" {
      var out := EscapeMarked(s, marks);
      var rest := EscapeMarked(s[1..], marks[1..]);
      UnescapeUndoesMarks(s[1..], marks[1..]);
      if marks[0] && (s[0] == '<' || s[0] == '>') {
        UnescapeEscaped(s[0], rest);
        UnescapeCopied(s[0], s[1..]);
        assert s == [s[0]] + s[1..];
      } else if s[0] == '&' {
        EntityAgrees(s, marks, "lt;");
        EntityAgrees(s, marks, "gt;");
        assert "&" + "lt;" == "&lt;" && "&" + "gt;" == "&gt;";
        assert out[1..] == rest;
        if "&lt;" <= s || "&gt;" <= s {
          UnescapeUndoesMarks(s[4..], marks[4..]);
        }
      } else {
        UnescapeCopied(s[0], rest);
        UnescapeCopied(s[0], s[1..]);
        assert s == [s[0]] + s[1..];
      }
    }
  }

  lemma UnescapeEscaped(c: char, rest: string)
    requires c == '<' || c == '>'
    ensures Unescape(EscapeChar(c) + rest) == [c] + Unescape(rest)
  {
    var s := EscapeChar(c) + rest;
    assert s[4..] == rest && s[1] == (if c == '<' then 'l' else 'g') && "&lt;"[1] == 'l';
    assert s[..4] == EscapeChar(c);
  }

  lemma UnescapeCopied(c: char, rest: string)
    requires c != '&'
    ensures Unescape([c] + rest) == [c] + Unescape(rest)
  {
    var s := [c] + rest;
    assert s[1..] == rest && s[0] == c && "&lt;"[0] == '&' && "&gt;"[0] == '&';
  }

  lemma EntityAgrees(s: string, marks: seq<bool>, word: string)
    requires |marks| == |s| && s != "" && s[0] == '&' && |word| == 3
    requires forall c <- word :: c != '&' && c != '<' && c != '>'
    ensures "&" + word <= s <==> "&" + word <= EscapeMarked(s, marks)
    ensures "&" + word <= s ==> EscapeMarked(s, marks)[4..] == EscapeMarked(s[4..], marks[4..])
  {
    var rest := EscapeMarked(s[1..], marks[1..]);
    var out := EscapeMarked(s, marks);
    assert out == ['&'] + rest && s == ['&'] + s[1..];
    MarkedLookahead(s[1..], marks[1..], word);
    PrefixBehind('&', word, s[1..]);
    PrefixBehind('&', word, rest);
    if word <= s[1..] {
      assert s[1..][3..] == s[4..] && marks[1..][3..] == marks[4..];
      assert out[4..] == rest[3..];
    }
  }

  lemma PrefixBehind(c: char, word: string, rest: string)
    ensures [c] + word <= [c] + rest <==> word <= rest
  {
    if word <= rest { assert rest == word + rest[|word|..]; }
    if [c] + word <= [c] + rest { assert word == ([c] + rest)[1..|word| + 1] == rest[..|word|]; }
  }

  /** The text is escaped rather than cut: read back, output and input are the same. */
  lemma NeutraliseDeletesNothing(s: string)
    ensures Unescape(Neutralise(s)) == Unescape(s)
  {
    var marks := NeutraliseIsMarked(s);
    UnescapeUndoesMarks(s, marks);
  }
}
