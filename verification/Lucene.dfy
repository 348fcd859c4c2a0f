/** Escaping free text for MusicBrainz's Lucene query syntax. */
module Lucene {
  import opened Basics

  const SPECIAL := "+-&|!(){}[]^\"~*?:\\/"

  predicate Special(c: char) {
    c in SPECIAL
  }

  predicate IsKeyword(token: string) {
    token in ["AND", "OR", "NOT", "TO"]
  }

  // ---------------------------------------------------------------- words

  /** The word still open at the end of `s`. */
  function OpenWord(s: string): string {
    if s == [] || IsSpace(s[|s| - 1]) then [] else OpenWord(s[..|s| - 1]) + [s[|s| - 1]]
  }

  function ClosedWords(s: string): seq<string> {
    if s == [] then []
    else
      var init := s[..|s| - 1];
      ClosedWords(init) + if IsSpace(s[|s| - 1]) && OpenWord(init) != [] then [OpenWord(init)] else []
  }

  /** The maximal runs without white space. */
  function Words(s: string): seq<string> {
    ClosedWords(s) + if OpenWord(s) != [] then [OpenWord(s)] else []
  }

  // ---------------------------------------------------------------- escaping

  function EscapeRunes(token: string): string {
    if token == [] then []
    else
      var r := token[|token| - 1];
      EscapeRunes(token[..|token| - 1]) + if Special(r) then ['\\', r] else [r]
  }

  /** What flushing a token writes. */
  function Flushed(token: string): string {
    (if IsKeyword(token) then "\\" else "") + EscapeRunes(token)
  }

  /** What is written by the time `s` has been read and its last word is still open. */
  function Written(s: string): string {
    if s == [] then []
    else
      var init := s[..|s| - 1];
      if IsSpace(s[|s| - 1]) then Written(init) + Flushed(OpenWord(init)) + [s[|s| - 1]] else Written(init)
  }

  function Escaped(s: string): string {
    Written(s) + Flushed(OpenWord(s))
  }

  lemma KeywordIsNotEmpty()
    ensures !IsKeyword("")
  {
  }

  method Flush(b: string, token: string) returns (b': string)
    ensures b' == b + Flushed(token)
  {
    hide IsKeyword, Special;
    KeywordIsNotEmpty();
    b' := b;
    if |token| == 0 {
      return;
    }
    if IsKeyword(token) {
      b' := b' + "\\";
    }
    ghost var start := b';
    for i := 0 to |token|
      invariant b' == start + EscapeRunes(token[..i])
    {
      assert token[..i + 1][..i] == token[..i];
      if Special(token[i]) {
        b' := b' + "\\";
      }
      b' := b' + [token[i]];
    }
    assert token[..|token|] == token;
  }

  method EscapeLucene(s: string) returns (b: string)
    ensures b == Escaped(s)
  {
    b := "";
    var token := "";
    for i := 0 to |s|
      invariant b == Written(s[..i]) && token == OpenWord(s[..i])
    {
      hide IsSpace, Flushed;
      assert s[..i + 1][..i] == s[..i];
      if IsSpace(s[i]) {
        b := Flush(b, token);
        token := "";
        b := b + [s[i]];
      } else {
        token := token + [s[i]];
      }
    }
    b := Flush(b, token);
    assert s[..|s|] == s;
  }

  // ---------------------------------------------------------------- reading it back

  /** Drops each escape backslash. */
  function Unescaped(t: string): string {
    if t == [] then []
    else if t[0] == '\\' && |t| > 1 then [t[1]] + Unescaped(t[2..])
    else [t[0]] + Unescaped(t[1..])
  }

  /** Every metacharacter is escaped, and no escape is left hanging. */
  predicate Inert(t: string) {
    t == [] || if t[0] == '\\' then |t| > 1 && Inert(t[2..]) else !Special(t[0]) && Inert(t[1..])
  }

  lemma {:induction false} InertPrefix(a: string, b: string)
    requires Inert(a)
    ensures Unescaped(a + b) == Unescaped(a) + Unescaped(b)
    ensures Inert(a + b) <==> Inert(b)
    decreases |a|
  {
    if a == [] {
      assert a + b == b;
    } else if a[0] == '\\' {
      assert (a + b)[2..] == a[2..] + b;
      InertPrefix(a[2..], b);
    } else {
      assert (a + b)[1..] == a[1..] + b;
      InertPrefix(a[1..], b);
    }
  }

  lemma InertRune(r: char)
    ensures var e := if Special(r) then ['\\', r] else [r];
            Inert(e) && Unescaped(e) == [r]
  {
    if Special(r) {
      assert ['\\', r][2..] == [];
    } else {
      assert [r][1..] == [] && Special('\\');
    }
  }

  lemma {:induction false} RunesReadBack(token: string)
    ensures Inert(EscapeRunes(token)) && Unescaped(EscapeRunes(token)) == token
  {
    if token != [] {
      var init, r := token[..|token| - 1], token[|token| - 1];
      RunesReadBack(init);
      InertRune(r);
      InertPrefix(EscapeRunes(init), if Special(r) then ['\\', r] else [r]);
    }
  }

  lemma TokenReadsBack(token: string)
    ensures Inert(Flushed(token)) && Unescaped(Flushed(token)) == token
  {
    hide IsKeyword, Special;
    if IsKeyword(token) {
      KeywordIsPlain(token);
      PlainReadsBack(token[1..]);
      assert ("\\" + token)[2..] == token[1..];
    } else {
      RunesReadBack(token);
      assert "" + EscapeRunes(token) == EscapeRunes(token);
    }
  }

  predicate Plain(t: string) {
    forall i | 0 <= i < |t| :: !Special(t[i])
  }

  lemma {:induction false} PlainReadsBack(t: string)
    requires Plain(t)
    ensures Inert(t) && Unescaped(t) == t
  {
    if t != [] {
      assert Special('\\');
      PlainReadsBack(t[1..]);
    }
  }

  lemma {:induction false} PlainStays(t: string)
    requires Plain(t)
    ensures EscapeRunes(t) == t
  {
    if t != [] {
      PlainStays(t[..|t| - 1]);
    }
  }

  lemma SpecialRange(c: char)
    ensures Special(c) ==> '!' <= c <= '~' && !('A' <= c <= 'Z')
  {
  }

  lemma KeywordIsPlain(token: string)
    requires IsKeyword(token)
    ensures Plain(token) && token != [] && EscapeRunes(token) == token
    ensures forall i | 0 <= i < |token| :: 'A' <= token[i] <= 'Z'
  {
    forall i | 0 <= i < |token| ensures 'A' <= token[i] <= 'Z' && !Special(token[i]) {
      SpecialRange(token[i]);
    }
    PlainStays(token);
  }

  lemma SpaceIsPlain(c: char)
    requires IsSpace(c)
    ensures !Special(c) && Inert([c]) && Unescaped([c]) == [c]
  {
    hide Special;
    SpecialRange(c);
    assert Special('\\') by { BackslashIsSpecial(); }
    assert [c][1..] == [];
  }

  lemma BackslashIsSpecial()
    ensures Special('\\')
  {
  }

  lemma {:induction false} WordsSplit(s: string)
    ensures Inert(Written(s)) && Unescaped(Written(s)) + OpenWord(s) == s
  {
    hide Flushed, IsSpace;
    if s != [] {
      var init, c := s[..|s| - 1], s[|s| - 1];
      WordsSplit(init);
      if IsSpace(c) {
        TokenReadsBack(OpenWord(init));
        SpaceIsPlain(c);
        InertPrefix(Written(init), Flushed(OpenWord(init)));
        InertPrefix(Written(init) + Flushed(OpenWord(init)), [c]);
      }
      assert s == init + [c];
    }
  }

  /** For every text: dropping the escapes gives it back, and no metacharacter is left to act. */
  lemma EscapeRoundTrips(s: string)
    ensures Unescaped(Escaped(s)) == s
    ensures Inert(Escaped(s))
  {
    WordsSplit(s);
    TokenReadsBack(OpenWord(s));
    InertPrefix(Written(s), Flushed(OpenWord(s)));
  }

  /** So two texts are never confused. */
  lemma EscapeIsInjective(s: string, t: string)
    requires Escaped(s) == Escaped(t)
    ensures s == t
  {
    EscapeRoundTrips(s);
    EscapeRoundTrips(t);
  }

  // ---------------------------------------------------------------- no operator words

  predicate OneWord(t: string) {
    t != [] && forall i | 0 <= i < |t| :: !IsSpace(t[i])
  }

  lemma {:induction false} OpenWordIs(s: string)
    ensures forall i | 0 <= i < |OpenWord(s)| :: !IsSpace(OpenWord(s)[i])
  {
    hide IsSpace;
    if s != [] {
      OpenWordIs(s[..|s| - 1]);
    }
  }

  lemma OneMore(s: string, c: char)
    ensures OpenWord(s + [c]) == if IsSpace(c) then [] else OpenWord(s) + [c]
    ensures ClosedWords(s + [c])
         == ClosedWords(s) + if IsSpace(c) && OpenWord(s) != [] then [OpenWord(s)] else []
  {
    hide IsSpace;
    assert (s + [c])[..|s|] == s;
  }

  lemma {:induction false} AppendWord(s: string, w: string)
    requires forall i | 0 <= i < |w| :: !IsSpace(w[i])
    ensures OpenWord(s + w) == OpenWord(s) + w && ClosedWords(s + w) == ClosedWords(s)
  {
    hide IsSpace, OpenWord, ClosedWords;
    if w == [] {
      assert s + w == s;
    } else {
      var init, c := w[..|w| - 1], w[|w| - 1];
      AppendWord(s, init);
      OneMore(s + init, c);
      assert s + w == s + init + [c];
      assert w == init + [c];
    }
  }

  lemma FlushedIsOneWord(token: string)
    requires OneWord(token)
    ensures OneWord(Flushed(token)) && !IsKeyword(Flushed(token))
  {
    RunesAreOneWord(token);
    hide IsSpace, IsKeyword, EscapeRunes, Special;
    if IsKeyword(token) {
      BackslashIsNoSpace();
      FirstIsNotLetter(Flushed(token));
    } else {
      assert Flushed(token) == EscapeRunes(token);
      RunesReadBack(token);
      if IsKeyword(EscapeRunes(token)) {
        KeywordIsPlain(EscapeRunes(token));
        PlainReadsBack(EscapeRunes(token));
      }
    }
  }

  lemma BackslashIsNoSpace()
    ensures !IsSpace('\\')
  {
  }

  lemma FirstIsNotLetter(b: string)
    requires b != [] && b[0] == '\\'
    ensures !IsKeyword(b)
  {
    if IsKeyword(b) {
      KeywordIsPlain(b);
      assert false;
    }
  }

  lemma {:induction false} RunesAreOneWord(token: string)
    requires forall i | 0 <= i < |token| :: !IsSpace(token[i])
    ensures forall i | 0 <= i < |EscapeRunes(token)| :: !IsSpace(EscapeRunes(token)[i])
    ensures |EscapeRunes(token)| >= |token|
  {
    hide Special, IsSpace;
    BackslashIsNoSpace();
    if token != [] {
      RunesAreOneWord(token[..|token| - 1]);
    }
  }

  predicate NoKeyword(words: seq<string>) {
    forall w | w in words :: !IsKeyword(w)
  }

  lemma {:induction false} WrittenHasNoKeyword(s: string)
    ensures NoKeyword(ClosedWords(Written(s))) && OpenWord(Written(s)) == []
  {
    hide IsSpace, IsKeyword, Flushed, OpenWord, ClosedWords;
    if s == [] {
      NothingWritten();
    } else {
      var init, c := s[..|s| - 1], s[|s| - 1];
      WrittenHasNoKeyword(init);
      if IsSpace(c) {
        var w := OpenWord(init);
        OpenWordIs(init);
        FlushedWord(w);
        AppendWord(Written(init), Flushed(w));
        OneMore(Written(init) + Flushed(w), c);
        assert OpenWord(Written(init)) + Flushed(w) == Flushed(w);
      }
    }
  }

  lemma NothingWritten()
    ensures Written([]) == [] && OpenWord([]) == [] && ClosedWords([]) == []
  {
  }

  lemma FlushedWord(w: string)
    requires forall i | 0 <= i < |w| :: !IsSpace(w[i])
    ensures forall i | 0 <= i < |Flushed(w)| :: !IsSpace(Flushed(w)[i])
    ensures !IsKeyword(Flushed(w))
  {
    hide IsSpace;
    if w != [] {
      FlushedIsOneWord(w);
    } else {
      KeywordIsNotEmpty();
    }
  }

  /** No word of the escaped text is an operator, whatever words the text has. */
  lemma EscapedHasNoKeyword(s: string)
    ensures NoKeyword(Words(Escaped(s)))
  {
    hide IsSpace, IsKeyword, Flushed;
    WrittenHasNoKeyword(s);
    OpenWordIs(s);
    FlushedWord(OpenWord(s));
    AppendWord(Written(s), Flushed(OpenWord(s)));
    assert OpenWord(Written(s)) + Flushed(OpenWord(s)) == Flushed(OpenWord(s));
  }

  // ---------------------------------------------------------------- what words are

  /** `s[i..j]` has no white space, and what lies around it, if anything, is white space. */
  predicate WordAt(s: string, i: int, j: int) {
    && 0 <= i < j <= |s|
    && (forall k | i <= k < j :: !IsSpace(s[k]))
    && (i == 0 || IsSpace(s[i - 1])) && (j == |s| || IsSpace(s[j]))
  }

  lemma {:induction false} OpenWordEnds(s: string)
    ensures var i := |s| - |OpenWord(s)|; i >= 0 && OpenWord(s) == s[i..] && (i == 0 || IsSpace(s[i - 1]))
  {
    hide IsSpace;
    if s != [] && !IsSpace(s[|s| - 1]) {
      OpenWordEnds(s[..|s| - 1]);
    }
  }

  lemma OpenWordAt(s: string, i: int)
    ensures WordAt(s, i, |s|) ==> OpenWord(s) == s[i..]
    ensures OpenWord(s) != [] ==> WordAt(s, |s| - |OpenWord(s)|, |s|) && OpenWord(s) == s[|s| - |OpenWord(s)|..]
  {
    hide IsSpace, OpenWord;
    OpenWordEnds(s);
    OpenWordIs(s);
    var n := |s| - |OpenWord(s)|;
    assert forall k | n <= k < |s| :: s[k] == OpenWord(s)[k - n];
  }

  lemma {:induction false} ClosedWordsAre(s: string, w: string)
    ensures w in ClosedWords(s) <==> exists i, j :: WordAt(s, i, j) && j < |s| && s[i..j] == w
  {
    hide IsSpace, OpenWord;
    if s != [] {
      var init, c := s[..|s| - 1], s[|s| - 1];
      ClosedWordsAre(init, w);
      ClosedOnce(init, c, w);
      assert s == init + [c];
    }
  }

  lemma StillAt(init: string, c: char, i: int, j: int)
    requires j < |init|
    ensures WordAt(init + [c], i, j) <==> WordAt(init, i, j)
    ensures 0 <= i <= j ==> (init + [c])[i..j] == init[i..j]
  {
    hide IsSpace;
    assert forall k | 0 <= k < |init| :: (init + [c])[k] == init[k];
  }

  lemma ClosedAt(init: string, c: char, i: int)
    ensures WordAt(init + [c], i, |init|) <==> IsSpace(c) && WordAt(init, i, |init|)
    ensures 0 <= i <= |init| ==> (init + [c])[i..|init|] == init[i..]
  {
    hide IsSpace;
    assert (init + [c])[|init|] == c;
    assert forall k | 0 <= k < |init| :: (init + [c])[k] == init[k];
  }

  /** A word closed in `init + [c]` was closed already, or `c` closes it. */
  lemma ClosedOnce(init: string, c: char, w: string)
    ensures var s := init + [c];
            (exists i, j :: WordAt(s, i, j) && j < |s| && s[i..j] == w)
            <==> (exists i, j :: WordAt(init, i, j) && j < |init| && init[i..j] == w)
                 || (IsSpace(c) && OpenWord(init) != [] && OpenWord(init) == w)
  {
    hide IsSpace, OpenWord;
    var s := init + [c];
    if i, j :| WordAt(s, i, j) && j < |s| && s[i..j] == w {
      AtIsInside(s, i, j);
      if j < |init| {
        StillAt(init, c, i, j);
      } else {
        ClosedAt(init, c, i);
        OpenWordAt(init, i);
      }
    }
    if i, j :| WordAt(init, i, j) && j < |init| && init[i..j] == w {
      AtIsInside(init, i, j);
      StillAt(init, c, i, j);
    }
    if IsSpace(c) && OpenWord(init) != [] && OpenWord(init) == w {
      OpenWordAt(init, 0);
      ClosedAt(init, c, |init| - |w|);
    }
  }

  lemma AtIsInside(s: string, i: int, j: int)
    requires WordAt(s, i, j)
    ensures 0 <= i < j <= |s|
  {
  }

  /** The words of a text are its maximal runs without white space. */
  lemma WordsAre(s: string, w: string)
    ensures w in Words(s) <==> exists i, j :: WordAt(s, i, j) && s[i..j] == w
  {
    hide IsSpace, OpenWord, ClosedWords;
    ClosedWordsAre(s, w);
    OpenWordAt(s, 0);
    if i, j :| WordAt(s, i, j) && s[i..j] == w && j == |s| {
      OpenWordAt(s, i);
      assert OpenWord(s) == w && w != [];
    }
    if OpenWord(s) != [] && OpenWord(s) == w {
      var i := |s| - |w|;
      assert WordAt(s, i, |s|) && s[i..|s|] == w;
    }
  }

  // ---------------------------------------------------------------- what is left alone

  lemma {:induction false} Unescapes(t: string)
    requires Inert(t)
    ensures |Unescaped(t)| <= |t|
    ensures |Unescaped(t)| == |t| ==> Plain(t)
    decreases |t|
  {
    if t != [] && t[0] == '\\' {
      Unescapes(t[2..]);
    } else if t != [] {
      Unescapes(t[1..]);
      assert t == [t[0]] + t[1..];
    }
  }

  lemma {:induction false} QuietIsWritten(s: string)
    requires Plain(s) && NoKeyword(ClosedWords(s))
    ensures Written(s) + OpenWord(s) == s
  {
    hide IsSpace, IsKeyword, EscapeRunes, NoKeyword;
    if s != [] {
      var init, c := s[..|s| - 1], s[|s| - 1];
      assert s == init + [c];
      OneMore(init, c);
      FewerWords(ClosedWords(init), ClosedWords(s));
      QuietIsWritten(init);
      if IsSpace(c) {
        var w := OpenWord(init);
        WordStays(init);
        assert w != [] ==> w in ClosedWords(s);
        QuietToken(w, ClosedWords(s));
      }
    }
  }

  lemma FewerWords(a: seq<string>, b: seq<string>)
    requires a <= b && NoKeyword(b)
    ensures NoKeyword(a)
  {
  }

  lemma {:induction false} WordStays(s: string)
    requires Plain(s)
    ensures Plain(OpenWord(s))
  {
    hide IsSpace;
    if s != [] {
      WordStays(s[..|s| - 1]);
    }
  }

  lemma QuietToken(w: string, words: seq<string>)
    requires Plain(w) && NoKeyword(words) && (w != [] ==> w in words)
    ensures Flushed(w) == w
  {
    KeywordIsNotEmpty();
    PlainStays(w);
  }

  lemma StaysIff(s: string)
    ensures Escaped(s) == s <==> Plain(s) && NoKeyword(Words(s))
  {
    hide IsSpace, IsKeyword, Flushed, OpenWord, ClosedWords, NoKeyword, Special;
    if Escaped(s) == s {
      EscapeRoundTrips(s);
      EscapedHasNoKeyword(s);
      Unescapes(s);
    }
    if Plain(s) && NoKeyword(Words(s)) {
      FewerWords(ClosedWords(s), Words(s));
      QuietIsWritten(s);
      WordStays(s);
      assert OpenWord(s) != [] ==> OpenWord(s) in Words(s);
      QuietToken(OpenWord(s), Words(s));
    }
  }

  lemma PlainIs(s: string)
    ensures Plain(s) <==> forall c | c in s :: c !in "+-&|!(){}[]^\"~*?:\\/"
  {
    forall i | 0 <= i < |s| ensures s[i] in s {}
  }

  /** A text is left as it is exactly if it has no metacharacter and no operator for a word. */
  lemma UnchangedIff(s: string)
    ensures Escaped(s) == s <==>
            (forall c | c in s :: c !in "+-&|!(){}[]^\"~*?:\\/")
            && forall w | w in Words(s) :: w !in {"AND", "OR", "NOT", "TO"}
  {
    hide Special, Words, Escaped;
    StaysIff(s);
    PlainIs(s);
  }

  // ---------------------------------------------------------------- the query

  const ARTIST := "artist:("
  const ALBUM := "releasegroup:("
  const AND := ") AND "

  function ReleaseGroupSearchQuery(artist: string, album: string, fuzzy: bool): string {
    var albumTerm := Escaped(album) + if fuzzy then "~" else "";
    var query := ALBUM + albumTerm + ")";
    if artist != "" then ARTIST + Escaped(artist) + AND + query else query
  }

  /** The two forms of a query. */
  lemma QueryIs(artist: string, album: string, fuzzy: bool)
    ensures var group := "releasegroup:(" + Escaped(album) + (if fuzzy then "~)" else ")");
            ReleaseGroupSearchQuery(artist, album, fuzzy)
            == if artist == "" then group else "artist:(" + Escaped(artist) + ") AND " + group
  {
    hide Escaped;
    var e := Escaped(album);
    assert ALBUM + (e + "~") + ")" == ALBUM + e + "~)";
    assert e + "" == e;
  }

  /** The text up to the first unescaped `end`, and what follows that. */
  function ReadTo(t: string, end: char): (string, string) {
    if t == [] then ([], [])
    else if t[0] == '\\' && |t| > 1 then
      var (a, b) := ReadTo(t[2..], end); ([t[0], t[1]] + a, b)
    else if t[0] == end then ([], t[1..])
    else var (a, b) := ReadTo(t[1..], end); ([t[0]] + a, b)
  }

  /** An escaped text holds no unescaped metacharacter to stop at. */
  lemma {:induction false} ReadsWholeTerm(t: string, end: char, rest: string)
    requires Inert(t) && Special(end) && end != '\\'
    ensures ReadTo(t + [end] + rest, end) == (t, rest)
    decreases |t|
  {
    hide Special;
    var all := t + [end] + rest;
    if t == [] {
      assert all[1..] == rest;
    } else if t[0] == '\\' {
      assert all[2..] == t[2..] + [end] + rest && all[0] == t[0] && all[1] == t[1];
      assert t == [t[0], t[1]] + t[2..];
      ReadsWholeTerm(t[2..], end, rest);
    } else {
      assert all[1..] == t[1..] + [end] + rest && all[0] == t[0];
      assert t == [t[0]] + t[1..];
      ReadsWholeTerm(t[1..], end, rest);
    }
  }

  /** Reads the terms back out of a query: the artist, if any, then the album term. */
  function ParseQuery(q: string): (string, string) {
    if ARTIST <= q then
      var (artist, rest) := ReadTo(q[|ARTIST|..], ')');
      var join := AND[1..] + ALBUM;
      if join <= rest then (artist, ReadTo(rest[|join|..], ')').0) else (artist, [])
    else if ALBUM <= q then ([], ReadTo(q[|ALBUM|..], ')').0)
    else ([], [])
  }

  lemma FuzzyTerm(album: string)
    ensures ReadTo(Escaped(album) + "~" + ")", ')') == (Escaped(album) + "~", [])
    ensures ReadTo(Escaped(album) + "~", '~') == (Escaped(album), [])
  {
    EscapeRoundTrips(album);
    hide Escaped;
    var e := Escaped(album);
    assert Special('~');
    ReadsWholeTerm(e, '~', []);
    assert e + ['~'] + [] == e + "~";
    ReadPast(e, "~)");
    assert e + "~" + ")" == e + "~)";
    assert "~)"[1..] == ")" && ")"[1..] == [];
    assert ReadTo(")", ')') == ([], []);
    var s := "~)";
    assert s[0] == '~' && s[1..] == ")" && [s[0]] + [] == "~";
    assert ReadTo(s, ')') == ("~", []);
  }

  /** An inert text is read through without stopping. */
  lemma {:induction false} ReadPast(t: string, rest: string)
    requires Inert(t)
    ensures ReadTo(t + rest, ')') == (t + ReadTo(rest, ')').0, ReadTo(rest, ')').1)
    decreases |t|
  {
    assert Special(')');
    hide Special;
    if t == [] {
      assert t + rest == rest && t + ReadTo(rest, ')').0 == ReadTo(rest, ')').0;
    } else if t[0] == '\\' {
      assert (t + rest)[2..] == t[2..] + rest && (t + rest)[1] == t[1];
      var (a, b) := ReadTo(rest, ')');
      assert [t[0], t[1]] + (t[2..] + a) == t + a;
      ReadPast(t[2..], rest);
    } else {
      assert (t + rest)[1..] == t[1..] + rest && (t + rest)[0] == t[0];
      var (a, b) := ReadTo(rest, ')');
      assert [t[0]] + (t[1..] + a) == t + a;
      ReadPast(t[1..], rest);
    }
  }

  /**
   The only unescaped parentheses of a query are the template's: whatever the artist and the album
   contain, reading each term up to its first unescaped closing parenthesis ends where the template
   ends it, and gives the text back.
  */
  lemma QueryReadsBack(artist: string, album: string, fuzzy: bool)
    ensures var (a, b) := ParseQuery(ReleaseGroupSearchQuery(artist, album, fuzzy));
            && Unescaped(a) == artist
            && (if fuzzy then ReadTo(b, '~').0 else b) == Escaped(album)
            && Unescaped(if fuzzy then ReadTo(b, '~').0 else b) == album
  {
    EscapeRoundTrips(artist);
    EscapeRoundTrips(album);
    assert Special(')');
    hide Escaped, Special, ReadTo, Unescaped;
    AlbumTermReads(album, fuzzy);
    var term := Escaped(album) + if fuzzy then "~" else "";
    var q := ReleaseGroupSearchQuery(artist, album, fuzzy);
    if artist != "" {
      var rest := AND[1..] + ALBUM + (term + ")");
      ReadsWholeTerm(Escaped(artist), ')', rest);
      Regroup(ARTIST, Escaped(artist), AND, ALBUM, term, ")");
      DropPrefix(ARTIST, Escaped(artist) + [')'] + rest);
      DropPrefix(AND[1..] + ALBUM, term + ")");
    } else {
      assert ALBUM + term + ")" == ALBUM + (term + ")");
      DropPrefix(ALBUM, term + ")");
      assert q[0] == 'r' && ARTIST[0] == 'a';
    }
  }

  lemma DropPrefix(p: string, t: string)
    ensures p <= p + t && (p + t)[|p|..] == t
  {
  }

  lemma Regroup(a: string, e: string, c: string, d: string, t: string, z: string)
    requires c != []
    ensures a + e + c + (d + t + z) == a + (e + [c[0]] + (c[1..] + d + (t + z)))
  {
    assert c == [c[0]] + c[1..];
  }

  lemma AlbumTermReads(album: string, fuzzy: bool)
    ensures var term := Escaped(album) + if fuzzy then "~" else "";
            ReadTo(term + ")", ')') == (term, []) && (fuzzy ==> ReadTo(term, '~').0 == Escaped(album))
  {
    EscapeRoundTrips(album);
    hide Escaped;
    var e := Escaped(album);
    if fuzzy {
      FuzzyTerm(album);
    } else {
      assert Special(')');
      ReadsWholeTerm(e, ')', []);
      assert e + "" == e && e + [')'] + [] == e + ")";
    }
  }
}
