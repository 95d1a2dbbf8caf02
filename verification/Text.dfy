/** Reading plain text: characters (ASCII), searching and splitting. */
module Text {
  import opened Options

  function Lower(c: char): char {
    if 'A' <= c <= 'Z' then c - 'A' + 'a' else c
  }

  predicate IsSpace(c: char) {
    c == ' ' || '\t' <= c <= '\r' || '\U{1c}' <= c <= '\U{1f}'
  }

  predicate IsDigit(c: char) { '0' <= c <= '9' }

  function LowerAll(s: string): (r: string)
    ensures |r| == |s|
  {
    seq(|s|, i requires 0 <= i < |s| => Lower(s[i]))
  }

  predicate HasDigit(s: string) { exists c <- s :: IsDigit(c) }

  /** The first occurrence. */
  function Find(s: string, literal: string): (n: Option<nat>)
    ensures n.Some? ==> n.value + |literal| <= |s|
  {
    if literal <= s then Some(0)
    else if s == "" then None
    else match Find(s[1..], literal)
      case None => None
      case Some(n) => Some(n + 1)
  }

  /** The last occurrence. */
  function FindLast(s: string, literal: string): (n: Option<nat>)
    ensures n.Some? ==> n.value + |literal| <= |s|
  {
    if s == "" then (if literal == "" then Some(0) else None)
    else match FindLast(s[1..], literal)
      case Some(n) => Some(n + 1)
      case None => if literal <= s then Some(0) else None
  }

  predicate Contains(s: string, literal: string) { Find(s, literal).Some? }

  predicate At(s: string, literal: string, i: nat) { i <= |s| && literal <= s[i..] }

  lemma Shift(s: string, literal: string)
    requires s != ""
    ensures forall j: nat :: 0 < j ==> (At(s, literal, j) <==> At(s[1..], literal, j - 1))
    ensures At(s, literal, 0) <==> literal <= s
  {
    assert s[0..] == s;
    forall j: nat | 0 < j ensures At(s, literal, j) <==> At(s[1..], literal, j - 1) {
      if j <= |s| { assert s[j..] == s[1..][j - 1..]; }
    }
  }

  lemma {:induction false} FindIsFirst(s: string, literal: string)
    ensures match Find(s, literal)
            case Some(i) => At(s, literal, i) && forall j: nat :: j < i ==> !At(s, literal, j)
            case None => forall j: nat :: !At(s, literal, j)
  {
    if s == "" {
      assert s[0..] == s;
    } else {
      Shift(s, literal);
      FindIsFirst(s[1..], literal);
    }
  }

  lemma {:induction false} FindLastIsLast(s: string, literal: string)
    ensures match FindLast(s, literal)
            case Some(i) => At(s, literal, i) && forall j: nat :: i < j ==> !At(s, literal, j)
            case None => forall j: nat :: !At(s, literal, j)
  {
    if s == "" {
      assert s[0..] == s;
    } else {
      Shift(s, literal);
      FindLastIsLast(s[1..], literal);
    }
  }

  /* ---------- Names in alphabetical order ---------- */

  predicate Precedes(a: string, b: string) {
    b != "" && (a == "" || a[0] < b[0] || (a[0] == b[0] && Precedes(a[1..], b[1..])))
  }

  /** The first place two names differ at decides, and the shorter goes first if there is none. */
  lemma {:induction false} PrecedesExactly(a: string, b: string)
    ensures Precedes(a, b) <==> exists k: nat :: DiffersAt(a, b, k) && (k == |a| || (k < |b| && a[k] < b[k]))
  {
    if a != "" && b != "" && a[0] == b[0] {
      PrecedesExactly(a[1..], b[1..]);
      forall k: nat ensures DiffersAt(a[1..], b[1..], k) <==> DiffersAt(a, b, k + 1) {
        if k <= |a| - 1 && k <= |b| - 1 {
          assert a[..k + 1] == [a[0]] + a[1..][..k] && b[..k + 1] == [b[0]] + b[1..][..k];
        }
      }
      if Precedes(a, b) {
        var k: nat :| DiffersAt(a[1..], b[1..], k) && (k == |a| - 1 || (k < |b| - 1 && a[1..][k] < b[1..][k]));
        assert DiffersAt(a, b, k + 1);
      }
      forall k: nat | DiffersAt(a, b, k) && (k == |a| || (k < |b| && a[k] < b[k])) ensures Precedes(a, b) {
        assert k > 0 && DiffersAt(a[1..], b[1..], k - 1);
      }
    } else {
      assert a[..0] == b[..0];
      assert a != b ==> DiffersAt(a, b, 0);
      LaterOnlyIfFirstsAgree(a, b);
    }
  }

  lemma LaterOnlyIfFirstsAgree(a: string, b: string)
    ensures forall k: nat :: DiffersAt(a, b, k) && k > 0 ==> |a| > 0 && |b| > 0 && a[0] == b[0]
  {
    forall k: nat | DiffersAt(a, b, k) && k > 0 ensures |a| > 0 && |b| > 0 && a[0] == b[0] {
      assert a[..k][0] == b[..k][0];
    }
  }

  /** The names agree up to there, and no further. */
  ghost predicate DiffersAt(a: string, b: string, k: nat) {
    k <= |a| && k <= |b| && a[..k] == b[..k] && a != b && (k < |a| && k < |b| ==> a[k] != b[k])
  }

  lemma {:induction false} PrecedesIsTotal(a: string, b: string)
    ensures a == b || Precedes(a, b) || Precedes(b, a)
    ensures !(Precedes(a, b) && Precedes(b, a)) && !Precedes(a, a)
  {
    if a != "" { PrecedesIsTotal(a[1..], a[1..]); }
    if a != "" && b != "" {
      PrecedesIsTotal(a[1..], b[1..]);
      assert a == [a[0]] + a[1..] && b == [b[0]] + b[1..];
    }
  }

  lemma {:induction false} PrecedesIsTransitive(a: string, b: string, c: string)
    requires Precedes(a, b) && Precedes(b, c)
    ensures Precedes(a, c)
  {
    if a != "" && a[0] == b[0] == c[0] { PrecedesIsTransitive(a[1..], b[1..], c[1..]); }
  }

  /* ---------- Pieces between separators ---------- */

  function Count(s: string, c: char): nat {
    if s == "" then 0 else Count(s[..|s| - 1], c) + if s[|s| - 1] == c then 1 else 0
  }

  /** `str.split` at a character: always at least one piece. */
  function Split(s: string, c: char): (pieces: seq<string>)
    ensures pieces != []
  {
    if s == "" then [""]
    else
      var before := Split(s[..|s| - 1], c);
      if s[|s| - 1] == c then before + [""]
      else before[|before| - 1 := before[|before| - 1] + [s[|s| - 1]]]
  }

  lemma {:induction false} SplitCounts(s: string, c: char)
    ensures |Split(s, c)| == Count(s, c) + 1
  {
    if s != "" { SplitCounts(s[..|s| - 1], c); }
  }

  /** The text up to a position fills the pieces before its own, and its own so far. */
  lemma {:induction false} SplitPrefix(s: string, c: char, o: nat)
    requires o <= |s|
    ensures Count(s[..o], c) < |Split(s, c)| && |Split(s[..o], c)| == Count(s[..o], c) + 1
    ensures var k := Count(s[..o], c);
            Split(s, c)[..k] == Split(s[..o], c)[..k] && Split(s[..o], c)[k] <= Split(s, c)[k]
  {
    SplitCounts(s, c);
    SplitCounts(s[..o], c);
    if o < |s| {
      var shorter := s[..|s| - 1];
      assert shorter[..o] == s[..o];
      SplitPrefix(shorter, c, o);
      SplitCounts(shorter, c);
    } else {
      assert s[..o] == s;
    }
  }
}
