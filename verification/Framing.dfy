/** The blocks put in front of a model, and a reader that takes them apart again.

    `Wrap` is the printer. `Read` is the specification it is held to: a header runs to the first
    `>`, a body to the first newline that is followed by the literal closing tag. */
module Framing {
  import opened Options
  import opened Text
  import opened Untrusted

  const HEAD := "<untrusted_source "
  const ATTRIBUTE_LIMIT := 200

  datatype Source = Source(id: string, tier: string, text: string, title: Option<string>)
  datatype Quoted = Quoted(id: string, tier: string, title: Option<string>, text: string)

  /* ---------- Attributes ---------- */

  function CleanChar(c: char): char {
    if c == '"' then '\'' else if c == '<' then '(' else if c == '>' then ')' else c
  }

  function CleanChars(s: string): (r: string)
    ensures |r| == |s| && forall i :: 0 <= i < |s| ==> r[i] == CleanChar(s[i])
  {
    seq(|s|, i requires 0 <= i < |s| => CleanChar(s[i]))
  }

  function WordRun(s: string): (n: nat)
    ensures n <= |s|
    ensures forall i :: 0 <= i < n ==> !IsSpace(s[i])
    ensures n < |s| ==> IsSpace(s[n])
  {
    if s == "" || IsSpace(s[0]) then 0 else 1 + WordRun(s[1..])
  }

  function Words(s: string): seq<string>
    decreases |s|
  {
    if s == "" then []
    else if IsSpace(s[0]) then Words(s[1..])
    else [s[..WordRun(s)]] + Words(s[WordRun(s)..])
  }

  function Join(parts: seq<string>, separator: string): string {
    if parts == [] then ""
    else if |parts| == 1 then parts[0]
    else parts[0] + separator + Join(parts[1..], separator)
  }

  /** The value before the cut: cleaned, its words joined by single spaces. */
  function Spaced(value: string): string { Join(Words(CleanChars(value)), " ") }

  function Attribute(value: string): string {
    var joined := Spaced(value);
    if |joined| <= ATTRIBUTE_LIMIT then joined else joined[..ATTRIBUTE_LIMIT]
  }

  /** Safe inside a double-quoted attribute: no quote, no bracket, no spacing but single spaces
      between words. */
  ghost predicate Tidy(s: string) {
    forall i :: 0 <= i < |s| ==> TidyAt(s, i)
  }

  ghost predicate TidyAt(s: string, i: nat)
    requires i < |s|
  {
    && CleanChar(s[i]) == s[i]
    && (IsSpace(s[i]) ==> s[i] == ' ' && i > 0 && s[i - 1] != ' ')
  }

  lemma TidyPrepend(word: string, tail: string)
    requires word != "" && Tidy(tail)
    requires forall i :: 0 <= i < |word| ==> CleanChar(word[i]) == word[i] && !IsSpace(word[i])
    ensures Tidy(word) && Tidy(word + " " + tail)
  {
    var s := word + " " + tail;
    forall i | 0 <= i < |s| ensures TidyAt(s, i) {
      if i > |word| {
        assert TidyAt(tail, i - |word| - 1);
        assert s[i] == tail[i - |word| - 1];
        if i > |word| + 1 { assert s[i - 1] == tail[i - |word| - 2]; }
      }
    }
  }

  lemma {:induction false} JoinedWordsTidy(s: string)
    requires forall i :: 0 <= i < |s| ==> CleanChar(s[i]) == s[i]
    ensures Tidy(Join(Words(s), " "))
    decreases |s|
  {
    if s != "" {
      if IsSpace(s[0]) {
        JoinedWordsTidy(s[1..]);
      } else {
        var k := WordRun(s);
        JoinedWordsTidy(s[k..]);
        var rest := Words(s[k..]);
        TidyPrepend(s[..k], Join(rest, " "));
        assert Words(s)[1..] == rest;
        assert Words(s)[0] == s[..k];
      }
    }
  }

  lemma TidyTail(s: string, from: nat)
    requires Tidy(s) && from <= |s| && (from < |s| ==> s[from] != ' ')
    ensures Tidy(s[from..])
  {
    var tail := s[from..];
    forall i | 0 <= i < |tail| ensures TidyAt(tail, i) { assert TidyAt(s, from + i); }
  }

  lemma {:induction false} TidyWordsRejoin(s: string)
    requires Tidy(s) && (s != "" ==> s[|s| - 1] != ' ')
    ensures Join(Words(s), " ") == s
    decreases |s|
  {
    if s != "" {
      var k := WordRun(s);
      if k < |s| {
        assert TidyAt(s, k);
        if k + 1 < |s| { assert TidyAt(s, k + 1); }
        var rest := s[k + 1..];
        assert s[k..] == " " + rest;
        assert Words(s[k..]) == Words(rest);
        TidyTail(s, k + 1);
        TidyWordsRejoin(rest);
        assert s == s[..k] + " " + rest;
        assert Words(s)[1..] == Words(rest);
        assert Words(rest) != [] by { assert rest[0] == s[k + 1]; }
      } else {
        assert s[k..] == "" && s[..k] == s;
        assert Words(s) == [s];
      }
    }
  }

  lemma AttributeIsTidy(value: string)
    ensures Tidy(Attribute(value)) && |Attribute(value)| <= ATTRIBUTE_LIMIT
  {
    var joined := Spaced(value);
    JoinedWordsTidy(CleanChars(value));
    forall i | 0 <= i < |Attribute(value)| ensures TidyAt(Attribute(value), i) {
      assert TidyAt(joined, i);
    }
  }

  /** Cleaning twice is cleaning once, except where there is a cut and it falls just after a space: the
      second pass drops that space. */
  lemma AttributeIdempotentExactly(value: string)
    ensures Attribute(Attribute(value)) == Attribute(value)
       <==> |Spaced(value)| <= ATTRIBUTE_LIMIT || Spaced(value)[ATTRIBUTE_LIMIT - 1] != ' '
  {
    AttributeIsTidy(value);
    NoTrailingSpace(CleanChars(value));
    var s := Attribute(value);
    assert CleanChars(s) == s by {
      forall i | 0 <= i < |s| ensures CleanChar(s[i]) == s[i] { assert TidyAt(s, i); }
    }
    if s == "" || s[|s| - 1] != ' ' {
      TidyWordsRejoin(s);
    } else {
      NoTrailingSpace(s);
      assert Join(Words(s), " ") == Join(Words(s), " ")[..|Join(Words(s), " ")|];
    }
  }

  /** Such a value: a word of one character less than the limit, and another. */
  lemma AttributeExample()
    ensures var value := seq(ATTRIBUTE_LIMIT - 1, _ => 'a') + " b";
            Attribute(Attribute(value)) != Attribute(value)
  {
    var value := seq(ATTRIBUTE_LIMIT - 1, _ => 'a') + " b";
    assert CleanChars(value) == value;
    forall i | 0 <= i < |value| ensures TidyAt(value, i) { }
    TidyWordsRejoin(value);
    assert value[ATTRIBUTE_LIMIT - 1] == ' ';
    AttributeIdempotentExactly(value);
  }

  /** Words joined by single spaces never end in a space. */
  lemma {:induction false} NoTrailingSpace(s: string)
    ensures var j := Join(Words(s), " "); j != "" ==> j[|j| - 1] != ' '
    ensures Join(Words(s), " ") != "" || Words(s) == []
    ensures |Join(Words(s), " ")| <= |s|
    decreases |s|
  {
    if s != "" {
      if IsSpace(s[0]) {
        NoTrailingSpace(s[1..]);
      } else {
        var k := WordRun(s);
        NoTrailingSpace(s[k..]);
        var rest := Words(s[k..]);
        assert Words(s)[1..] == rest;
        if rest != [] {
          assert Join(Words(s), " ") == s[..k] + " " + Join(rest, " ");
          if k < |s| { NoTrailingSpace(s[k + 1..]); }
        } else {
          assert Join(Words(s), " ") == s[..k];
        }
      }
    }
  }

  /* ---------- What cleaning gives ---------- */

  ghost predicate Spacing(s: string) { forall c <- s :: IsSpace(c) }

  ghost predicate Word(s: string) { s != "" && forall c <- s :: !IsSpace(c) }

  /** The words of a text, in order, are these: what is between them is spacing. */
  ghost predicate HasWords(s: string, words: seq<string>)
    decreases |words|
  {
    if words == [] then Spacing(s)
    else Word(words[0]) && exists gap, rest :: Opens(s, gap, words[0], rest) && HasWords(rest, words[1..])
  }

  ghost predicate Opens(s: string, gap: string, word: string, rest: string) {
    s == gap + word + rest && Spacing(gap) && (rest == "" || IsSpace(rest[0]))
  }

  /** The one string is the other with quotes, and angle brackets, made apostrophes and parentheses. */
  ghost predicate Softened(s: string, t: string) {
    |t| == |s| && forall i :: 0 <= i < |s| ==>
      match s[i] case '"' => t[i] == '\'' case '<' => t[i] == '(' case '>' => t[i] == ')' case _ => t[i] == s[i]
  }

  ghost predicate SoftenedAll(words: seq<string>, others: seq<string>) {
    |others| == |words| && forall i :: 0 <= i < |words| ==> Softened(words[i], others[i])
  }

  /** One blank between words, none at the ends, and no other spacing. */
  ghost predicate SingleSpaced(s: string) {
    forall i :: 0 <= i < |s| && IsSpace(s[i]) ==> s[i] == ' ' && 0 < i < |s| - 1 && !IsSpace(s[i + 1])
  }

  /** A field as a block carries it: its words in their order, softened and single-spaced, cut at 200. */
  ghost predicate Cleaned(value: string, shown: string) {
    exists words, softened, line ::
      && HasWords(value, words) && SoftenedAll(words, softened)
      && HasWords(line, softened) && SingleSpaced(line)
      && shown == if |line| <= 200 then line else line[..200]
  }

  /** A field there is nothing to clean in. */
  ghost predicate Plain(value: string) {
    |value| <= 200 && SingleSpaced(value) && forall c <- value :: c != '"' && c != '<' && c != '>'
  }

  lemma {:induction false} WordsAreWords(s: string)
    ensures HasWords(s, Words(s))
    decreases |s|
  {
    if s != "" {
      if IsSpace(s[0]) {
        WordsAreWords(s[1..]);
        SpaceInFront(s, Words(s));
      } else {
        var k := WordRun(s);
        var words := Words(s);
        WordsAreWords(s[k..]);
        assert words[1..] == Words(s[k..]) && words[0] == s[..k];
        assert Word(s[..k]);
        assert Opens(s, "", words[0], s[k..]);
      }
    }
  }

  lemma SpaceInFront(s: string, words: seq<string>)
    requires s != "" && IsSpace(s[0]) && HasWords(s[1..], words)
    ensures HasWords(s, words)
  {
    if words == [] {
      assert s == [s[0]] + s[1..];
    } else {
      var gap, rest :| Opens(s[1..], gap, words[0], rest) && HasWords(rest, words[1..]);
      assert Opens(s, [s[0]] + gap, words[0], rest) by { assert s == [s[0]] + s[1..]; }
    }
  }

  lemma {:induction false} JoinedAreWords(words: seq<string>)
    requires forall w <- words :: Word(w)
    ensures HasWords(Join(words, " "), words)
    ensures words != [] ==> HasWords(" " + Join(words, " "), words)
  {
    var line := Join(words, " ");
    if words != [] {
      var rest := words[1..];
      JoinedAreWords(rest);
      var after := if rest == [] then "" else " " + Join(rest, " ");
      assert line == "" + words[0] + after;
      hide Join;
      assert Opens(line, "", words[0], after);
      assert words[0] in words;
      assert HasWords(line, words);
      assert (" " + line)[1..] == line;
      SpaceInFront(" " + line, words);
    }
  }

  lemma {:induction false} WordsHaveNoSpace(s: string)
    ensures forall w <- Words(s) :: Word(w)
    decreases |s|
  {
    if s != "" {
      if IsSpace(s[0]) { WordsHaveNoSpace(s[1..]); } else { WordsHaveNoSpace(s[WordRun(s)..]); }
    }
  }

  lemma {:induction false} CleaningSoftens(s: string)
    ensures SoftenedAll(Words(s), Words(CleanChars(s)))
    decreases |s|
  {
    var t := CleanChars(s);
    if s != "" {
      if IsSpace(s[0]) {
        assert CleanChars(s[1..]) == t[1..];
        CleaningSoftens(s[1..]);
      } else {
        var k := WordRun(s);
        SameRun(s, t);
        assert CleanChars(s[k..]) == t[k..];
        CleaningSoftens(s[k..]);
        assert Softened(s[..k], t[..k]);
        assert Words(s) == [s[..k]] + Words(s[k..]) && Words(t) == [t[..k]] + Words(t[k..]);
      }
    }
  }

  lemma {:induction false} SameRun(s: string, t: string)
    requires |s| == |t| && forall i :: 0 <= i < |s| ==> IsSpace(s[i]) == IsSpace(t[i])
    ensures WordRun(s) == WordRun(t)
  {
    if s != "" && !IsSpace(s[0]) { SameRun(s[1..], t[1..]); }
  }

  lemma AttributeIsCleaned(value: string)
    ensures Cleaned(value, Attribute(value))
    ensures Plain(value) ==> Attribute(value) == value
  {
    hide HasWords, SoftenedAll, SingleSpaced, Words, Join, Plain;
    var words, softened := Words(value), Words(CleanChars(value));
    WordsAreWords(value);
    CleaningSoftens(value);
    WordsHaveNoSpace(CleanChars(value));
    JoinedAreWords(softened);
    SpacedIsSingle(value);
    if Plain(value) { PlainStays(value); }
  }

  lemma PlainStays(value: string)
    requires Plain(value)
    ensures Attribute(value) == value
  {
    assert CleanChars(value) == value by {
      forall i | 0 <= i < |value| ensures CleanChar(value[i]) == value[i] { assert value[i] in value; }
    }
    forall i | 0 <= i < |value| ensures TidyAt(value, i) {
      assert value[i] in value;
      if i > 0 && IsSpace(value[i - 1]) { assert !IsSpace(value[i]); }
    }
    TidyWordsRejoin(value);
  }

  lemma SpacedIsSingle(value: string)
    ensures SingleSpaced(Spaced(value))
  {
    var line := Spaced(value);
    JoinedWordsTidy(CleanChars(value));
    NoTrailingSpace(CleanChars(value));
    forall i | 0 <= i < |line| && IsSpace(line[i]) ensures line[i] == ' ' && 0 < i < |line| - 1 && !IsSpace(line[i + 1]) {
      assert TidyAt(line, i);
      if i + 1 < |line| { assert TidyAt(line, i + 1); }
    }
  }

  /** What a block carries of a source: each field under its own name, a title exactly when the source has
      one that is not empty, and the text with nothing deleted. A field there is nothing to clean in, and a
      text that holds no delimiter, is carried as it is. */
  ghost predicate Carries(q: Quoted, source: Source) {
    && Cleaned(source.id, q.id) && (Plain(source.id) ==> q.id == source.id)
    && Cleaned(source.tier, q.tier) && (Plain(source.tier) ==> q.tier == source.tier)
    && CarriesTitle(q.title, source.title)
    && DelimiterFree(q.text) && Unescape(q.text) == Unescape(source.text)
    && (DelimiterFree(source.text) ==> q.text == source.text)
  }

  ghost predicate CarriesTitle(shown: Option<string>, title: Option<string>) {
    match title
    case None => shown.None?
    case Some(t) =>
      if t == "" then shown.None?
      else shown.Some? && Cleaned(t, shown.value) && (Plain(t) ==> shown.value == t)
  }

  /* ---------- The printer ---------- */

  function HasTitle(source: Source): bool {
    source.title.Some? && source.title.value != ""
  }

  function Attributes(id: string, tier: string, title: Option<string>): string {
    Named("id", id) + (Named(" tier", tier) + TitlePart(title))
  }

  function Named(name: string, value: string): string {
    name + "=\"" + value + "\""
  }

  function TitlePart(title: Option<string>): string {
    if title.Some? then Named(" title", title.value) else ""
  }

  /** What a source becomes on its way into a prompt. */
  function Quote(source: Source): Quoted {
    Quoted(Attribute(source.id), Attribute(source.tier),
           if HasTitle(source) then Some(Attribute(source.title.value)) else None,
           Neutralise(source.text))
  }

  function Block(source: Source): string {
    Frame(Quote(source))
  }

  function Frame(q: Quoted): string {
    HEAD + Attributes(q.id, q.tier, q.title) + ">\n" + q.text + CLOSE
  }

  function Blocks(sources: seq<Source>): (r: seq<string>)
    ensures |r| == |sources| && forall i :: 0 <= i < |r| ==> r[i] == Block(sources[i])
  {
    seq(|sources|, i requires 0 <= i < |sources| => Block(sources[i]))
  }

  function Wrap(sources: seq<Source>): string {
    if sources == [] then "" else Join(Blocks(sources), "\n\n")
  }

  /* ---------- The reader ---------- */

  /** `name="..."` at the start of `s`: the value, and what follows the closing quote. */
  function ReadAttribute(s: string, name: string): Option<(string, string)> {
    if !(name + "=\"" <= s) then None else
      var after := s[|name| + 2..];
      match IndexOf(after, '"')
      case None => None
      case Some(q) => Some((after[..q], after[q + 1..]))
  }

  function ReadAttributes(header: string): Option<(string, string, Option<string>)> {
    match ReadAttribute(header, "id")
    case None => None
    case Some((id, afterId)) =>
      match ReadAttribute(afterId, " tier")
      case None => None
      case Some((tier, afterTier)) =>
        if afterTier == "" then Some((id, tier, None))
        else match ReadAttribute(afterTier, " title")
          case None => None
          case Some((title, end)) => if end == "" then Some((id, tier, Some(title))) else None
  }

  function ReadBlock(s: string): (r: Option<(Quoted, string)>)
    ensures r.Some? ==> |r.value.1| < |s|
  {
    if !(HEAD <= s) then None else
      match IndexOf(s, '>')
      case None => None
      case Some(a) =>
        if a < |HEAD| || !("\n" <= s[a + 1..]) then None else
          var body := s[a + 2..];
          match Find(body, CLOSE)
          case None => None
          case Some(c) =>
            match ReadAttributes(s[|HEAD|..a])
            case None => None
            case Some((id, tier, title)) => Some((Quoted(id, tier, title, body[..c]), body[c + |CLOSE|..]))
  }

  function Read(s: string): Option<seq<Quoted>>
    decreases |s|
  {
    if s == "" then Some([])
    else match ReadBlock(s)
      case None => None
      case Some((block, rest)) =>
        if rest == "" then Some([block])
        else if "\n\n" <= rest && rest != "\n\n" then
          match Read(rest[2..])
          case None => None
          case Some(more) => Some([block] + more)
        else None
  }

  /* ---------- Round trip ---------- */

  lemma AttributeReadBack(name: string, value: string, after: string)
    requires '"' !in value
    ensures ReadAttribute(Named(name, value) + after, name) == Some((value, after))
  {
    hide IndexOf;
    var tail := value + ['"'] + after;
    assert Named(name, value) + after == name + "=\"" + tail;
    IndexExact(value, '"', after);
    assert tail[..|value|] == value && tail[|value| + 1..] == after;
  }

  lemma AttributesReadBack(id: string, tier: string, title: Option<string>)
    requires '"' !in id && '"' !in tier && (title.Some? ==> '"' !in title.value)
    ensures ReadAttributes(Attributes(id, tier, title)) == Some((id, tier, title))
  {
    hide ReadAttribute;
    AttributeReadBack("id", id, Named(" tier", tier) + TitlePart(title));
    AttributeReadBack(" tier", tier, TitlePart(title));
    if title.Some? {
      AttributeReadBack(" title", title.value, "");
      assert TitlePart(title) + "" == TitlePart(title) != "";
    }
  }

  lemma CloseContainsDelimiter()
    ensures IsDelimiter(CLOSE[1..])
  {
    assert CLOSE[1..] == "<" + "/" + "" + OPEN + "" + ">";
    assert DelimiterParts(CLOSE[1..], "/", "", OPEN, "");
  }

  lemma CloseNotAhead(body: string, after: string)
    requires body != "" && DelimiterFree(body)
    ensures !(CLOSE <= body + CLOSE + after)
  {
    var s := body + CLOSE + after;
    if |body| < |CLOSE| {
      assert s[|body|] == '\n' && CLOSE[|body|] != '\n';
    } else if CLOSE <= s {
      assert body[..|CLOSE|] == CLOSE;
      assert body[1..|CLOSE|] == CLOSE[1..];
      CloseContainsDelimiter();
    }
  }

  /** A body free of delimiters ends exactly where the closing line starts. */
  lemma {:induction false} BodyEndsAtClose(body: string, after: string)
    requires DelimiterFree(body)
    ensures Find(body + CLOSE + after, CLOSE) == Some(|body|)
  {
    var s := body + CLOSE + after;
    if body == "" {
      assert s == CLOSE + after;
    } else {
      CloseNotAhead(body, after);
      assert s[1..] == body[1..] + CLOSE + after;
      forall i, j | 0 <= i <= j <= |body[1..]| ensures !IsDelimiter(body[1..][i..j]) {
        assert body[1..][i..j] == body[i + 1..j + 1];
      }
      BodyEndsAtClose(body[1..], after);
    }
  }

  lemma TidyHasNo(s: string, c: char)
    requires Tidy(s) && (c == '"' || c == '>')
    ensures c !in s
  {
    forall i | 0 <= i < |s| ensures s[i] != c { assert TidyAt(s, i); }
  }

  lemma AttributeHasNo(value: string)
    ensures '"' !in Attribute(value) && '>' !in Attribute(value)
  {
    AttributeIsTidy(value);
    TidyHasNo(Attribute(value), '"');
    TidyHasNo(Attribute(value), '>');
  }

  lemma QuoteCarries(source: Source)
    ensures Carries(Quote(source), source)
  {
    hide Cleaned, Plain, Attribute;
    AttributeIsCleaned(source.id);
    AttributeIsCleaned(source.tier);
    if source.title.Some? { AttributeIsCleaned(source.title.value); }
    NeutraliseLeavesNoDelimiter(source.text);
    NeutraliseDeletesNothing(source.text);
    UnchangedExactlyWhenFree(source.text);
  }

  lemma QuoteIsClean(source: Source)
    ensures var q := Quote(source);
            && '"' !in q.id && '"' !in q.tier && (q.title.Some? ==> '"' !in q.title.value)
            && '>' !in Attributes(q.id, q.tier, q.title)
            && DelimiterFree(q.text)
  {
    AttributeHasNo(source.id);
    AttributeHasNo(source.tier);
    if HasTitle(source) { AttributeHasNo(source.title.value); }
    NeutraliseLeavesNoDelimiter(source.text);
  }

  lemma BlockPieces(header: string, body: string)
    requires '>' !in header
    ensures var s := HEAD + header + ">\n" + body;
            && HEAD <= s && IndexOf(s, '>') == Some(|HEAD| + |header|)
            && s[|HEAD|..|HEAD| + |header|] == header
            && "\n" <= s[|HEAD| + |header| + 1..]
            && s[|HEAD| + |header| + 2..] == body
  {
    var s := HEAD + header + ">\n" + body;
    assert s == (HEAD + header) + ['>'] + ("\n" + body);
    IndexExact(HEAD + header, '>', "\n" + body);
    assert s[|HEAD| + |header| + 1..] == "\n" + body;
  }

  lemma FrameSplits(q: Quoted, after: string)
    ensures Frame(q) + after
         == HEAD + Attributes(q.id, q.tier, q.title) + ">\n" + (q.text + CLOSE + after)
  {
  }

  lemma BodySplits(text: string, after: string)
    ensures var body := text + CLOSE + after;
            body[..|text|] == text && body[|text| + |CLOSE|..] == after
  {
  }

  lemma FrameReadBack(q: Quoted, after: string)
    requires '"' !in q.id && '"' !in q.tier && (q.title.Some? ==> '"' !in q.title.value)
    requires '>' !in Attributes(q.id, q.tier, q.title)
    requires DelimiterFree(q.text)
    ensures ReadBlock(Frame(q) + after) == Some((q, after))
  {
    var header := Attributes(q.id, q.tier, q.title);
    var body := q.text + CLOSE + after;
    FrameSplits(q, after);
    BlockPieces(header, body);
    BodyEndsAtClose(q.text, after);
    BodySplits(q.text, after);
    AttributesReadBack(q.id, q.tier, q.title);
  }

  lemma BlockReadBack(source: Source, after: string)
    ensures ReadBlock(Block(source) + after) == Some((Quote(source), after)) && Carries(Quote(source), source)
  {
    hide Carries;
    QuoteCarries(source);
    QuoteIsClean(source);
    FrameReadBack(Quote(source), after);
  }

  function Quotes(sources: seq<Source>): (r: seq<Quoted>)
    ensures |r| == |sources| && forall i :: 0 <= i < |r| ==> r[i] == Quote(sources[i])
  {
    seq(|sources|, i requires 0 <= i < |sources| => Quote(sources[i]))
  }

  lemma {:induction false} ReadJoined(sources: seq<Source>, wrapped: string, quotes: seq<Quoted>)
    requires sources != [] && wrapped == Wrap(sources) && quotes == Quotes(sources)
    ensures Read(wrapped) == Some(quotes)
  {
    hide Wrap, ReadBlock, Block, Read;
    var rest := sources[1..];
    WrapSplits(sources);
    BlockReadBack(sources[0], Separated(rest));
    if rest == [] {
      assert quotes == [Quote(sources[0])];
      ReadLast(wrapped, Quote(sources[0]));
    } else {
      var more := Wrap(rest);
      ReadJoined(rest, more, quotes[1..]);
      assert more != "" by { WrapSplits(rest); }
      ReadStep(wrapped, Quote(sources[0]), more);
      assert quotes == [Quote(sources[0])] + quotes[1..];
    }
  }

  /** Round trip: whatever the sources say, the reader finds in each block what it carries of its own
      source, in order, and nothing else. */
  lemma ReadWrap(sources: seq<Source>)
    ensures Read(Wrap(sources)) == Some(Quotes(sources)) && |Quotes(sources)| == |sources|
    ensures forall i :: 0 <= i < |sources| ==> Carries(Quotes(sources)[i], sources[i])
  {
    hide Carries;
    forall i | 0 <= i < |sources| ensures Carries(Quotes(sources)[i], sources[i]) { QuoteCarries(sources[i]); }
    if sources != [] { ReadJoined(sources, Wrap(sources), Quotes(sources)); }
  }

  function Separated(sources: seq<Source>): string {
    if sources == [] then "" else "\n\n" + Wrap(sources)
  }

  lemma WrapSplits(sources: seq<Source>)
    requires sources != []
    ensures Wrap(sources) == Block(sources[0]) + Separated(sources[1..])
    ensures Wrap(sources) != ""
  {
    assert Blocks(sources)[1..] == Blocks(sources[1..]);
  }

  lemma ReadLast(s: string, block: Quoted)
    requires s != "" && ReadBlock(s) == Some((block, ""))
    ensures Read(s) == Some([block])
  {
  }

  lemma ReadStep(s: string, block: Quoted, more: string)
    requires s != "" && more != "" && ReadBlock(s) == Some((block, "\n\n" + more))
    requires Read(more).Some?
    ensures Read(s) == Some([block] + Read(more).value)
  {
    var rest := "\n\n" + more;
    assert |rest| > 2 && rest[2..] == more;
  }

  /** Two lists of sources have the same rendering exactly when they were the same quotations. */
  lemma WrapTellsSourcesApart(first: seq<Source>, second: seq<Source>)
    ensures Wrap(first) == Wrap(second) <==> Quotes(first) == Quotes(second)
    ensures Wrap(first) == Wrap(second) ==>
              |first| == |second| && forall i :: 0 <= i < |first| ==> Unescape(first[i].text) == Unescape(second[i].text)
  {
    ReadWrap(first);
    ReadWrap(second);
    if Quotes(first) == Quotes(second) {
      assert |first| == |Quotes(first)| == |Quotes(second)| == |second|;
      forall i | 0 <= i < |first|
        ensures Blocks(first)[i] == Blocks(second)[i]
        ensures Unescape(first[i].text) == Unescape(second[i].text)
      {
        assert Quotes(first)[i] == Quotes(second)[i];
        NeutraliseDeletesNothing(first[i].text);
        NeutraliseDeletesNothing(second[i].text);
      }
      assert Blocks(first) == Blocks(second);
    }
  }
}
