/** Every text a person may type, and what the grammar makes of it: mentions and padding, quoting,
    capitals and aliases, the words of each report, and what a typed command ends up writing. */
module SlackTexts {
  import opened JsonMerge
  import opened Commands
  import opened SlackGrammar

  // ---------------------------------------------------------------- mentions

  lemma StripOne(s: string)
    requires s != "" && s[0] != '<'
    ensures StripMentions(s) == [s[0]] + StripMentions(s[1..])
  {
  }

  lemma Together(a: string, b: string, c: string)
    ensures (a + b) + c == a + (b + c)
  {
  }

  lemma HeadAndTail(a: string, s: string)
    requires a != ""
    ensures [a[0]] + (a[1..] + s) == a + s
  {
  }

  lemma {:induction false} StripAfter(a: string, s: string)
    requires '<' !in a
    ensures StripMentions(a + s) == a + StripMentions(s)
  {
    if a == "" {
      assert a + s == s;
    } else {
      assert (a + s)[1..] == a[1..] + s && (a + s)[0] == a[0];
      StripOne(a + s);
      StripAfter(a[1..], s);
      HeadAndTail(a, StripMentions(s));
    }
  }

  lemma StripMention(u: string, b: string)
    requires u != "" && '>' !in u
    ensures StripMentions("<@" + u + ">" + b) == StripMentions(b)
  {
    var s := "<@" + u + ">" + b;
    assert s[2..] == u + ['>'] + b;
    SplitAtFirst(u, b, '>');
    assert s[2 + |u| + 1..] == b;
  }

  /** A mention is dropped wherever it stands: a text means what it means without it. */
  lemma MentionDropped(a: string, u: string, b: string, defaultNs: string)
    requires '<' !in a && u != "" && '>' !in u
    ensures Parse(a + "<@" + u + ">" + b, defaultNs) == Parse(a + b, defaultNs)
  {
    assert a + "<@" + u + ">" + b == a + ("<@" + u + ">" + b);
    StripAfter(a, "<@" + u + ">" + b);
    StripMention(u, b);
    StripAfter(a, b);
  }

  lemma {:induction false} NothingClosed(s: string)
    requires '>' !in s
    ensures StripMentions(s) == s
  {
    if s != "" {
      NothingClosed(s[1..]);
      assert [s[0]] + s[1..] == s;
    }
  }

  /** What is no mention stays: one that is not closed. */
  lemma OpenMentionStays(a: string, u: string)
    requires '<' !in a && '>' !in u
    ensures StripMentions(a + "<@" + u) == a + "<@" + u
  {
    assert a + "<@" + u == a + ("<@" + u);
    StripAfter(a, "<@" + u);
    NothingClosed("<@" + u);
  }

  lemma StripEmptyMention(b: string)
    ensures StripMentions("<@>" + b) == "<@>" + StripMentions(b)
  {
    var s := "<@>" + b;
    assert s[1..] == "@>" + b && s[2..][0] == '>';
    StripAfter("@>", b);
    assert ['<'] + ("@>" + StripMentions(b)) == "<@>" + StripMentions(b);
  }

  /** One that names nobody. */
  lemma EmptyMentionStays(a: string, b: string)
    requires '<' !in a
    ensures StripMentions(a + ("<@>" + b)) == a + ("<@>" + StripMentions(b))
  {
    StripAfter(a, "<@>" + b);
    StripEmptyMention(b);
  }

  /** And a bracket that is not followed by an at sign. */
  lemma BracketStays(a: string, b: string)
    requires '<' !in a && (b != "" ==> b[0] != '@')
    ensures StripMentions(a + (['<'] + b)) == a + (['<'] + StripMentions(b))
  {
    var s := ['<'] + b;
    StripAfter(a, s);
    assert s[1..] == b && (|s| > 2 ==> s[1] == b[0]);
    assert StripMentions(s) == ['<'] + StripMentions(b);
  }

  // ---------------------------------------------------------------- padding

  predicate Blank(s: string) {
    forall i | 0 <= i < |s| :: s[i] in " \t\r\n"
  }

  lemma {:induction false} IndexBeyond(s: string, q: string, c: char)
    requires c !in q
    ensures IndexOf(s + q, c) == if c in s then IndexOf(s, c) else |s| + |q|
  {
    if s == "" {
      assert s + q == q;
      IndexAbsent(q, c);
    } else {
      assert (s + q)[1..] == s[1..] + q;
      IndexBeyond(s[1..], q, c);
    }
  }

  lemma {:induction false} IndexAbsent(s: string, c: char)
    ensures c !in s <==> IndexOf(s, c) == |s|
  {
    if s != "" {
      IndexAbsent(s[1..], c);
    }
  }

  lemma {:induction false} StripBefore(s: string, q: string)
    requires Blank(q)
    ensures StripMentions(s + q) == StripMentions(s) + q
    decreases |s|
  {
    assert '<' !in q && '>' !in q;
    if s == "" {
      assert s + q == q;
      NoMentions(q);
    } else {
      assert (s + q)[1..] == s[1..] + q;
      StripBefore(s[1..], q);
      assert [s[0]] + (StripMentions(s[1..]) + q) == ([s[0]] + StripMentions(s[1..])) + q;
      if |s| >= 2 {
        assert (s + q)[2..] == s[2..] + q;
        IndexBeyond(s[2..], q, '>');
        IndexAbsent(s[2..], '>');
        var end := 2 + IndexOf(s[2..], '>');
        if end < |s| {
          assert (s + q)[end + 1..] == s[end + 1..] + q;
          StripBefore(s[end + 1..], q);
        }
      }
    }
  }

  lemma {:induction false} LeftOf(p: string, s: string)
    requires Blank(p)
    ensures StripLeft(p + s) == StripLeft(s)
  {
    if p == "" {
      assert p + s == s;
    } else {
      assert (p + s)[1..] == p[1..] + s;
      LeftOf(p[1..], s);
    }
  }

  lemma {:induction false} RightOf(s: string, q: string)
    requires Blank(q)
    ensures StripRight(s + q) == StripRight(s)
    decreases |q|
  {
    if q == "" {
      assert s + q == s;
    } else {
      assert (s + q)[..|s + q| - 1] == s + q[..|q| - 1];
      RightOf(s, q[..|q| - 1]);
    }
  }

  lemma {:induction false} LeftThenTail(s: string, q: string)
    requires Blank(q)
    ensures StripLeft(s + q) == (if StripLeft(s) == "" then "" else StripLeft(s) + q)
  {
    if s == "" {
      assert s + q == q == q + "";
      LeftOf(q, "");
    } else {
      assert (s + q)[1..] == s[1..] + q;
      LeftThenTail(s[1..], q);
    }
  }

  /** White space around a text does not matter. */
  lemma PaddingDropped(p: string, text: string, q: string, defaultNs: string)
    requires Blank(p) && Blank(q)
    ensures Parse(p + text + q, defaultNs) == Parse(text, defaultNs)
  {
    assert '<' !in p && p + text + q == p + (text + q);
    var clean := StripMentions(text);
    StripAfter(p, text + q);
    StripBefore(text, q);
    LeftOf(p, clean + q);
    LeftThenTail(clean, q);
    if StripLeft(clean) != "" {
      RightOf(StripLeft(clean), q);
    }
  }

  // ---------------------------------------------------------------- quoting

  const APOSTROPHE := '\''
  const QUOTE := '"'
  const BACKSLASH := '\\'

  /** A character between double quotes: itself, an escaped quote or backslash, or a backslash that
      is kept because another character follows it. */
  datatype Quoted = Itself(c: char) | Escaped(c: char) | Kept(c: char)

  /** A piece of a word: bare characters, single quotes, double quotes, or a backslash. */
  datatype Piece = Bare(text: string) | Single(text: string) | Double(chars: seq<Quoted>) | Backslash(c: char)

  predicate WellQuoted(q: Quoted) {
    match q
    case Itself(c) => c != QUOTE && c != BACKSLASH
    case Escaped(c) => c == QUOTE || c == BACKSLASH
    case Kept(c) => c != QUOTE && c != BACKSLASH
  }

  predicate WellFormed(p: Piece) {
    match p
    case Bare(text) => text != "" && forall i | 0 <= i < |text| :: text[i] !in " \t\r\n'\"\\"
    case Single(text) => APOSTROPHE !in text
    case Double(chars) => forall i | 0 <= i < |chars| :: WellQuoted(chars[i])
    case Backslash(_) => true
  }

  function Inside(chars: seq<Quoted>): string {
    if chars == [] then ""
    else (if chars[0].Itself? then [chars[0].c] else [BACKSLASH, chars[0].c]) + Inside(chars[1..])
  }

  function Meant(chars: seq<Quoted>): string {
    if chars == [] then ""
    else (if chars[0].Kept? then [BACKSLASH, chars[0].c] else [chars[0].c]) + Meant(chars[1..])
  }

  function Render(p: Piece): string {
    match p
    case Bare(text) => text
    case Single(text) => [APOSTROPHE] + text + [APOSTROPHE]
    case Double(chars) => [QUOTE] + Inside(chars) + [QUOTE]
    case Backslash(c) => [BACKSLASH, c]
  }

  function Meaning(p: Piece): string {
    match p
    case Bare(text) => text
    case Single(text) => text
    case Double(chars) => Meant(chars)
    case Backslash(c) => [c]
  }

  function Rendered(word: seq<Piece>): string {
    if word == [] then "" else Render(word[0]) + Rendered(word[1..])
  }

  function WordMeaning(word: seq<Piece>): string {
    if word == [] then "" else Meaning(word[0]) + WordMeaning(word[1..])
  }

  lemma {:induction false} LexSingle(text: string, rest: string, token: string)
    requires APOSTROPHE !in text
    ensures Lex(text + [APOSTROPHE] + rest, Quote(APOSTROPHE), token) == Lex(rest, Word, token + text)
    ensures Lex(text, Quote(APOSTROPHE), token) == None
    decreases |text|
  {
    var s := text + [APOSTROPHE] + rest;
    if text == "" {
      assert s[1..] == rest && token + text == token;
    } else {
      assert s[1..] == text[1..] + [APOSTROPHE] + rest;
      Together(token, [text[0]], text[1..]);
      assert [text[0]] + text[1..] == text;
      LexSingle(text[1..], rest, token + [text[0]]);
    }
  }

  lemma LexQuoted(q: Quoted, rest: string, token: string)
    requires WellQuoted(q)
    ensures Lex((if q.Itself? then [q.c] else [BACKSLASH, q.c]) + rest, Quote(QUOTE), token)
         == Lex(rest, Quote(QUOTE), token + (if q.Kept? then [BACKSLASH, q.c] else [q.c]))
  {
    var s := (if q.Itself? then [q.c] else [BACKSLASH, q.c]) + rest;
    if q.Itself? {
      assert s[1..] == rest;
    } else {
      assert s[0] == BACKSLASH && s[1..] == [q.c] + rest && s[1..][1..] == rest;
      assert Lex(s, Quote(QUOTE), token) == Lex(s[1..], Escape(true), token);
    }
  }

  lemma {:induction false} LexDouble(chars: seq<Quoted>, rest: string, token: string)
    requires forall i | 0 <= i < |chars| :: WellQuoted(chars[i])
    ensures Lex(Inside(chars) + rest, Quote(QUOTE), token) == Lex(rest, Quote(QUOTE), token + Meant(chars))
    decreases |chars|
  {
    if chars == [] {
      assert Inside(chars) + rest == rest && token + Meant(chars) == token;
    } else {
      var q, tail := chars[0], chars[1..];
      assert forall i | 0 <= i < |tail| :: tail[i] == chars[i + 1];
      var shown, more := if q.Itself? then [q.c] else [BACKSLASH, q.c], if q.Kept? then [BACKSLASH, q.c] else [q.c];
      Together(shown, Inside(tail), rest);
      Together(token, more, Meant(tail));
      LexQuoted(q, Inside(tail) + rest, token);
      LexDouble(tail, rest, token + more);
    }
  }

  /** A word begins as it goes on. */
  lemma BeginsAsWord(s: string)
    requires s != "" && !White(s[0])
    ensures Lex(s, Gap, "") == Lex(s, Word, "")
  {
    assert "" + [s[0]] == [s[0]];
  }

  lemma LexSinglePiece(text: string, rest: string, token: string)
    requires APOSTROPHE !in text
    ensures Lex([APOSTROPHE] + text + [APOSTROPHE] + rest, Word, token) == Lex(rest, Word, token + text)
  {
    var s := [APOSTROPHE] + text + [APOSTROPHE] + rest;
    assert s[0] == APOSTROPHE && s[1..] == text + [APOSTROPHE] + rest;
    LexSingle(text, rest, token);
  }

  lemma LexDoublePiece(chars: seq<Quoted>, rest: string, token: string)
    requires forall i | 0 <= i < |chars| :: WellQuoted(chars[i])
    ensures Lex([QUOTE] + Inside(chars) + [QUOTE] + rest, Word, token) == Lex(rest, Word, token + Meant(chars))
  {
    var s, tail := [QUOTE] + Inside(chars) + [QUOTE] + rest, [QUOTE] + rest;
    assert s[0] == QUOTE && s[1..] == Inside(chars) + tail;
    LexDouble(chars, tail, token);
    assert tail[0] == QUOTE && tail[1..] == rest;
  }

  lemma LexBackslashPiece(c: char, rest: string, token: string)
    ensures Lex([BACKSLASH, c] + rest, Word, token) == Lex(rest, Word, token + [c])
  {
    var s := [BACKSLASH, c] + rest;
    assert s[1..] == [c] + rest && s[1..][1..] == rest;
  }

  /** A piece adds its meaning to the word that is read. */
  lemma LexPiece(p: Piece, rest: string, token: string)
    requires WellFormed(p)
    ensures Lex(Render(p) + rest, Word, token) == Lex(rest, Word, token + Meaning(p))
  {
    match p
    case Bare(text) => LexWord(text, rest, token);
    case Single(text) => LexSinglePiece(text, rest, token);
    case Double(chars) => LexDoublePiece(chars, rest, token);
    case Backslash(c) => LexBackslashPiece(c, rest, token);
  }

  lemma {:induction false} LexPieces(word: seq<Piece>, rest: string, token: string)
    requires forall i | 0 <= i < |word| :: WellFormed(word[i])
    ensures Lex(Rendered(word) + rest, Word, token) == Lex(rest, Word, token + WordMeaning(word))
    decreases |word|
  {
    if word == [] {
      assert Rendered(word) + rest == rest && token + WordMeaning(word) == token;
    } else {
      assert forall i | 0 <= i < |word[1..]| :: word[1..][i] == word[i + 1];
      Together(Render(word[0]), Rendered(word[1..]), rest);
      Together(token, Meaning(word[0]), WordMeaning(word[1..]));
      LexPiece(word[0], Rendered(word[1..]) + rest, token);
      LexPieces(word[1..], rest, token + Meaning(word[0]));
    }
  }

  predicate OneWord(word: seq<Piece>) {
    word != [] && forall i | 0 <= i < |word| :: WellFormed(word[i])
  }

  lemma LexWhole(word: seq<Piece>, rest: string)
    requires OneWord(word)
    ensures Lex(Rendered(word) + rest, Gap, "") == Lex(rest, Word, WordMeaning(word))
  {
    var s := Rendered(word) + rest;
    assert s[0] == Render(word[0])[0];
    BeginsAsWord(s);
    LexPieces(word, rest, "");
    assert "" + WordMeaning(word) == WordMeaning(word);
  }

  /** A line: words, each after white space, which only the first word can do without. */
  datatype Spaced = Spaced(gap: string, word: seq<Piece>)

  predicate Line(line: seq<Spaced>) {
    forall i | 0 <= i < |line| :: Blank(line[i].gap) && OneWord(line[i].word) && (i > 0 ==> line[i].gap != "")
  }

  function LineRendered(line: seq<Spaced>): string {
    if line == [] then "" else LineRendered(line[..|line| - 1]) + line[|line| - 1].gap + Rendered(line[|line| - 1].word)
  }

  function LineMeaning(line: seq<Spaced>): seq<string> {
    seq(|line|, i requires 0 <= i < |line| => WordMeaning(line[i].word))
  }

  lemma {:induction false} LexGap(gap: string, rest: string)
    requires Blank(gap)
    ensures Lex(gap + rest, Gap, "") == Lex(rest, Gap, "")
  {
    if gap == "" {
      assert gap + rest == rest;
    } else {
      assert (gap + rest)[1..] == gap[1..] + rest;
      LexGap(gap[1..], rest);
    }
  }

  lemma LexEnd(gap: string, rest: string, token: string)
    requires Blank(gap) && gap != ""
    ensures Lex(gap + rest, Word, token) == Cons(token, Lex(rest, Gap, ""))
  {
    assert (gap + rest)[1..] == gap[1..] + rest;
    LexGap(gap[1..], rest);
  }

  /** What reading goes on with after the words of a line. */
  function Prefixed(words: seq<string>, rest: Option<seq<string>>): Option<seq<string>> {
    if rest.None? then None else Some(words + rest.value)
  }

  lemma PrefixedCons(words: seq<string>, word: string, rest: Option<seq<string>>)
    ensures Prefixed(words, Cons(word, rest)) == Prefixed(words + [word], rest)
  {
    if rest.Some? {
      assert words + ([word] + rest.value) == words + [word] + rest.value;
    }
  }

  lemma MeaningSnoc(line: seq<Spaced>)
    requires line != []
    ensures LineMeaning(line) == LineMeaning(line[..|line| - 1]) + [WordMeaning(line[|line| - 1].word)]
  {
  }

  lemma Regrouped(a: string, b: string, c: string, d: string)
    ensures a + b + c + d == a + (b + (c + d))
  {
  }

  lemma {:induction false} LexLine(line: seq<Spaced>, gap: string, rest: string)
    requires Line(line) && Blank(gap) && (line != [] ==> gap != "")
    ensures Lex(LineRendered(line) + (gap + rest), Gap, "") == Prefixed(LineMeaning(line), Lex(rest, Gap, ""))
    decreases |line|
  {
    if line == [] {
      assert LineRendered(line) + (gap + rest) == gap + rest;
      LexGap(gap, rest);
      assert LineMeaning(line) == [];
      assert Lex(rest, Gap, "").Some? ==> [] + Lex(rest, Gap, "").value == Lex(rest, Gap, "").value;
    } else {
      var init, last := line[..|line| - 1], line[|line| - 1];
      var after := Rendered(last.word) + (gap + rest);
      Regrouped(LineRendered(init), last.gap, Rendered(last.word), gap + rest);
      LexLine(init, last.gap, after);
      LexWhole(last.word, gap + rest);
      LexEnd(gap, rest, WordMeaning(last.word));
      PrefixedCons(LineMeaning(init), WordMeaning(last.word), Lex(rest, Gap, ""));
      MeaningSnoc(line);
    }
  }

  /** How a text can end in the middle of a word: with an open quotation, with a backslash that has
      nothing to escape, or with both. */
  datatype Open = OpenSingle(text: string) | OpenDouble(chars: seq<Quoted>, backslash: bool) | OpenBackslash

  predicate OpenEnd(o: Open) {
    match o
    case OpenSingle(text) => APOSTROPHE !in text
    case OpenDouble(chars, _) => forall i | 0 <= i < |chars| :: WellQuoted(chars[i])
    case OpenBackslash => true
  }

  function OpenRendered(o: Open): string {
    match o
    case OpenSingle(text) => [APOSTROPHE] + text
    case OpenDouble(chars, backslash) => [QUOTE] + Inside(chars) + (if backslash then [BACKSLASH] else "")
    case OpenBackslash => [BACKSLASH]
  }

  lemma LexOpenDouble(chars: seq<Quoted>, tail: string, token: string)
    requires (forall i | 0 <= i < |chars| :: WellQuoted(chars[i])) && tail in {"", [BACKSLASH]}
    ensures Lex([QUOTE] + Inside(chars) + tail, Word, token) == None
  {
    var s := [QUOTE] + Inside(chars) + tail;
    assert s[0] == QUOTE && s[1..] == Inside(chars) + tail;
    LexDouble(chars, tail, token);
  }

  lemma LexOpen(o: Open, token: string)
    requires OpenEnd(o)
    ensures Lex(OpenRendered(o), Word, token) == None
  {
    match o
    case OpenSingle(text) =>
      assert OpenRendered(o)[1..] == text;
      LexSingle(text, "", token);
    case OpenDouble(chars, backslash) =>
      LexOpenDouble(chars, if backslash then [BACKSLASH] else "", token);
    case OpenBackslash =>
  }

  lemma LineThen(line: seq<Spaced>, gap: string, rest: string)
    requires Line(line) && Blank(gap) && (line != [] ==> gap != "")
    ensures Lex(LineRendered(line) + gap + rest, Gap, "") == Prefixed(LineMeaning(line), Lex(rest, Gap, ""))
  {
    assert LineRendered(line) + gap + rest == LineRendered(line) + (gap + rest);
    LexLine(line, gap, rest);
  }

  lemma LexOne(word: seq<Piece>)
    requires OneWord(word)
    ensures Lex(Rendered(word), Gap, "") == Some([WordMeaning(word)])
  {
    LexWhole(word, "");
    assert Rendered(word) + "" == Rendered(word);
  }

  lemma LexLastWord(line: seq<Spaced>)
    requires Line(line) && line != []
    ensures Lex(LineRendered(line), Gap, "") == Some(LineMeaning(line))
  {
    LineThen(line[..|line| - 1], line[|line| - 1].gap, Rendered(line[|line| - 1].word));
    LexOne(line[|line| - 1].word);
    MeaningSnoc(line);
  }

  /** Shell words: a line reads as the meanings of its words, whatever white space is between them
      and however they are quoted. */
  lemma LineReads(line: seq<Spaced>, gap: string)
    requires Line(line) && Blank(gap)
    ensures Lex(LineRendered(line) + gap, Gap, "") == Some(LineMeaning(line))
  {
    if line == [] || gap != "" {
      LineThen(line, gap, "");
      assert LineRendered(line) + gap + "" == LineRendered(line) + gap;
      assert LineMeaning(line) + [] == LineMeaning(line);
    } else {
      LexLastWord(line);
      assert LineRendered(line) + gap == LineRendered(line);
    }
  }

  /** What ends in an open quotation or a bare backslash is refused, at the beginning of a word and
      inside one. */
  lemma OpenLineRefused(line: seq<Spaced>, gap: string, word: seq<Piece>, o: Open)
    requires Line(line) && Blank(gap) && OpenEnd(o) && (line != [] ==> gap != "")
    requires forall i | 0 <= i < |word| :: WellFormed(word[i])
    ensures Lex(LineRendered(line) + gap + (Rendered(word) + OpenRendered(o)), Gap, "") == None
  {
    var rest := Rendered(word) + OpenRendered(o);
    LineThen(line, gap, rest);
    if word == [] {
      assert rest == OpenRendered(o);
      BeginsAsWord(rest);
      LexOpen(o, "");
    } else {
      LexWhole(word, OpenRendered(o));
      LexOpen(o, WordMeaning(word));
    }
  }
}
