/**
 The relevance gate: do a candidate's files belong to the requested album? The thresholds are ratios
 of small integers, compared here by cross-multiplication.
*/
module Relevance {
  import opened Basics
  import Brackets

  /** A peer file: the segments of its directory, and its last path element. */
  datatype File = File(dir: seq<string>, name: string)

  /**
   `tokens` splits text into folded words, `isNoise` classifies release-naming noise, `trackName` drops
   a file name's extension and leading track number.
  */
  datatype Lex = Lex(tokens: string -> seq<string>, isNoise: string -> bool, trackName: string -> string)

  datatype Input = Input(artist: string, title: string, trackTitles: seq<string>, files: seq<File>)

  datatype Source = NoData | TrackTitles | Directory

  datatype Verdict = Verdict(matches: bool, source: Source)

  function NonNoise(lex: Lex, s: string): set<string> {
    set t | t in lex.tokens(s) && !lex.isNoise(t)
  }

  // ---------------------------------------------------------------- trailing bracket groups

  predicate Opener(c: char) {
    c == '[' || c == '{'
  }

  predicate Closer(c: char) {
    c == ']' || c == '}'
  }

  /** The opening bracket nearest below `i` with no other bracket in between, or -1. */
  function OpenerBelow(s: string, i: nat): int
    requires i <= |s|
    ensures -1 <= OpenerBelow(s, i) < i || i == 0
    ensures OpenerBelow(s, i) >= 0 ==> OpenerBelow(s, i) < i
  {
    if i == 0 || Closer(s[i - 1]) then -1
    else if Opener(s[i - 1]) then i - 1
    else OpenerBelow(s, i - 1)
  }

  lemma {:induction false} TrimIsPrefix(s: string)
    ensures Brackets.Trimmed(s) <= s
    ensures forall i | |Brackets.Trimmed(s)| <= i < |s| :: s[i] in " \t\n\U{C}\r"
    ensures var t := Brackets.Trimmed(s); t != [] ==> t[|t| - 1] !in " \t\n\U{C}\r"
  {
    if s != [] {
      TrimIsPrefix(s[..|s| - 1]);
    }
  }

  /** One replacement of `\s*[\[{][^\[\]{}]*[\]}]\s*$`. */
  function StripTail(s: string): string {
    var t := Brackets.Trimmed(s);
    if t != [] && Closer(t[|t| - 1]) && OpenerBelow(t, |t| - 1) >= 0
    then Brackets.Trimmed(t[..OpenerBelow(t, |t| - 1)])
    else s
  }

  lemma StripTailShortens(s: string)
    ensures StripTail(s) <= s && (StripTail(s) != s ==> |StripTail(s)| < |s|)
  {
    var t := Brackets.Trimmed(s);
    TrimIsPrefix(s);
    if t != [] && Closer(t[|t| - 1]) && OpenerBelow(t, |t| - 1) >= 0 {
      TrimIsPrefix(t[..OpenerBelow(t, |t| - 1)]);
    }
  }

  function StripTails(s: string): (r: string)
    ensures r <= s && StripTail(r) == r
    decreases |s|
  {
    StripTailShortens(s);
    if StripTail(s) == s then s else StripTails(StripTail(s))
  }

  method StripTrailingBracketNoise(text: string) returns (s: string)
    ensures s == StripTails(text)
  {
    s := text;
    while true
      invariant StripTails(s) == StripTails(text)
      decreases |s|
    {
      var next := StripTail(s);
      StripTailShortens(s);
      if next == s {
        break;
      }
      s := next;
    }
  }

  /** A group that ends before `i`, opened at `k`. */
  predicate OpensAt(s: string, k: int, i: nat)
    requires i <= |s|
  {
    0 <= k < i && s[k] in "[{" && forall j | k < j < i :: s[j] !in "[]{}"
  }

  lemma {:induction false} OpenerIsNearest(s: string, i: nat, k: int)
    requires i <= |s|
    ensures OpensAt(s, k, i) <==> k >= 0 && k == OpenerBelow(s, i)
    decreases i
  {
    if i > 0 && !Closer(s[i - 1]) && !Opener(s[i - 1]) {
      OpenerIsNearest(s, i - 1, k);
    }
  }

  /** `s` is `p`, a square or curly group that holds no such bracket, and blanks. */
  ghost predicate EndsInGroup(s: string, p: string, x: string, blanks: string) {
    && |s| == |p| + |x| + 2 + |blanks|
    && p <= s && s[|p|] in "[{" && s[|p| + 1..|p| + 1 + |x|] == x && s[|p| + 1 + |x|] in "]}"
    && s[|p| + |x| + 2..] == blanks
    && (forall c | c in x :: c !in "[]{}") && forall c | c in blanks :: c in " \t\n\U{C}\r"
  }

  lemma TrimmedGroup(s: string, p: string, x: string, blanks: string)
    requires EndsInGroup(s, p, x, blanks)
    ensures Brackets.Trimmed(s) == s[..|p| + |x| + 2]
  {
    TrimIsPrefix(s);
    var t, n := Brackets.Trimmed(s), |p| + |x| + 2;
    assert forall j | n <= j < |s| :: s[j] == blanks[j - n];
  }

  /** Such a tail is dropped with the blanks around it, and nothing else ever is. */
  lemma GroupIsDropped(s: string, p: string, x: string, blanks: string)
    requires EndsInGroup(s, p, x, blanks)
    ensures StripTails(s) == StripTails(Brackets.Trimmed(p))
  {
    TrimmedGroup(s, p, x, blanks);
    var t := Brackets.Trimmed(s);
    forall j | |p| < j < |t| - 1 ensures t[j] !in "[]{}" {
      assert t[j] == x[j - |p| - 1];
    }
    OpenerIsNearest(t, |t| - 1, |p|);
    assert t[..|p|] == p;
    StripTailShortens(s);
    assert StripTail(s) == Brackets.Trimmed(p);
    TrimIsPrefix(p);
  }

  lemma GroupIsLonger(s: string, p: string, x: string, blanks: string)
    requires EndsInGroup(s, p, x, blanks)
    ensures |p| < |s|
  {
  }

  lemma OnlyGroupsAreDropped(s: string)
    ensures StripTails(s) == s <==> forall p, x, blanks :: !EndsInGroup(s, p, x, blanks)
  {
    hide EndsInGroup, StripTail;
    forall p, x, blanks | EndsInGroup(s, p, x, blanks) ensures StripTails(s) != s {
      GroupIsLonger(s, p, x, blanks);
      GroupIsDropped(s, p, x, blanks);
      TrimIsPrefix(p);
      assert |StripTails(Brackets.Trimmed(p))| <= |p| < |s|;
    }
    if StripTail(s) != s {
      DroppedIsGroup(s);
    }
  }

  lemma DroppedIsGroup(s: string)
    requires StripTail(s) != s
    ensures exists p, x, blanks :: EndsInGroup(s, p, x, blanks)
  {
    TrimIsPrefix(s);
    var t := Brackets.Trimmed(s);
    var k := OpenerBelow(t, |t| - 1);
    OpenerIsNearest(t, |t| - 1, k);
    var x := s[k + 1..|t| - 1];
    assert forall c | c in x :: c !in "[]{}";
    assert EndsInGroup(s, s[..k], x, s[|t|..]);
  }

  /** Parentheses are never forgiven: a segment that ends in one is judged whole. */
  lemma ParenthesesStay(s: string)
    requires s != [] && s[|s| - 1] == ')'
    ensures StripTails(s) == s
  {
  }

  // ---------------------------------------------------------------- the directory

  predicate DirAccepts(dir: set<string>, title: set<string>, artist: set<string>) {
    dir != {} && 5 * |title * dir| >= 4 * |title| && 5 * |dir * (title + artist)| >= 3 * |dir|
  }

  lemma CountNext(seen: set<string>, t: string, of: set<string>)
    requires t !in seen
    ensures |(seen + {t}) * of| == |seen * of| + if t in of then 1 else 0
  {
    assert (seen + {t}) * of == seen * of + if t in of then {t} else {};
  }

  method CountIn(s: set<string>, of: set<string>) returns (n: nat)
    ensures n == |s * of|
  {
    n := 0;
    var rest := s;
    ghost var seen: set<string> := {};
    while rest != {}
      invariant seen + rest == s && seen !! rest && n == |seen * of|
      decreases |rest|
    {
      var t := AnyOf(rest);
      rest := rest - {t};
      CountNext(seen, t, of);
      seen := seen + {t};
      if t in of {
        n := n + 1;
      }
    }
    assert seen == s;
  }

  method DirCheck(lex: Lex, segment: string, title: set<string>, artist: set<string>) returns (ok: bool)
    requires title != {}
    ensures ok == DirAccepts(NonNoise(lex, StripTails(segment)), title, artist)
  {
    var stripped := StripTrailingBracketNoise(segment);
    var dir := NonNoise(lex, stripped);
    if |dir| == 0 {
      return false;
    }
    var recallHits := CountIn(title, dir);
    var precisionHits := CountIn(dir, title + artist);
    ok := 5 * recallHits >= 4 * |title| && 5 * precisionHits >= 3 * |dir|;
  }

  lemma SplitCount(a: set<string>, b: set<string>)
    ensures |a| == |a * b| + |a - b|
  {
    assert a == a * b + (a - b);
  }

  /**
   A directory is accepted exactly when at most a fifth of the title's words are missing from it and
   at most two fifths of its own words are explained by neither title nor artist; a title of fewer
   than five words may miss none.
  */
  lemma DirectoryToleratesExactly(dir: set<string>, title: set<string>, artist: set<string>)
    requires dir != {}
    ensures DirAccepts(dir, title, artist) <==>
            5 * |title - dir| <= |title| && 5 * |dir - (title + artist)| <= 2 * |dir|
    ensures DirAccepts(dir, title, artist) && |title| < 5 ==> title <= dir
  {
    SplitCount(title, dir);
    SplitCount(dir, title + artist);
    if DirAccepts(dir, title, artist) && |title| < 5 {
      assert title - dir == {};
      assert forall t | t in title :: t !in title - dir;
    }
  }

  /** Of nested names, the longer is taken for the shorter exactly down to three fifths. */
  lemma NestedNamesAccepted(dir: set<string>, title: set<string>, artist: set<string>)
    requires artist <= title <= dir && title != {}
    ensures DirAccepts(dir, title, artist) <==> 5 * |title| >= 3 * |dir|
  {
    assert title * dir == title && dir * (title + artist) == title;
  }

  /** The case the gate was written for: "The Absence" is not "The Absence Of Presence". */
  lemma AbsenceOfPresenceRejected()
    ensures !DirAccepts({"the", "absence", "of", "presence"}, {"the", "absence"}, {"the", "absence"})
  {
    assert "of" !in {"the", "absence"} && "presence" !in {"the", "absence"};
    NestedNamesAccepted({"the", "absence", "of", "presence"}, {"the", "absence"}, {"the", "absence"});
  }

  // ---------------------------------------------------------------- the track titles

  const EXCLUDED := {"track", "tracks", "untitled", "audiotrack", "unknown"}

  predicate AllDigits(s: string) {
    s != [] && forall i | 0 <= i < |s| :: '0' <= s[i] <= '9'
  }

  predicate Evidence(lex: Lex, t: string) {
    !lex.isNoise(t) && t !in EXCLUDED && !AllDigits(t)
  }

  predicate Interpretable(lex: Lex, f: File) {
    exists i :: 0 <= i < |lex.tokens(lex.trackName(f.name))| && Evidence(lex, lex.tokens(lex.trackName(f.name))[i])
  }

  predicate TitleCovered(words: set<string>, title: set<string>) {
    title != {} && 4 * |title * words| >= 3 * |title|
  }

  predicate MatchesSome(lex: Lex, f: File, expected: seq<set<string>>) {
    var words := NonNoise(lex, lex.trackName(f.name));
    words != {} && exists i :: 0 <= i < |expected| && TitleCovered(words, expected[i])
  }

  method MatchesSomeTrack(lex: Lex, f: File, expected: seq<set<string>>) returns (yes: bool)
    ensures yes == MatchesSome(lex, f, expected)
  {
    var words := NonNoise(lex, lex.trackName(f.name));
    if |words| == 0 {
      return false;
    }
    for n := 0 to |expected|
      invariant forall i | 0 <= i < n :: !TitleCovered(words, expected[i])
    {
      if |expected[n]| == 0 {
        continue;
      }
      var hits := CountIn(expected[n], words);
      if 4 * hits >= 3 * |expected[n]| {
        return true;
      }
    }
    return false;
  }

  method IsInterpretable(lex: Lex, f: File) returns (yes: bool)
    ensures yes == Interpretable(lex, f)
  {
    var words := lex.tokens(lex.trackName(f.name));
    for i := 0 to |words|
      invariant forall k | 0 <= k < i :: !Evidence(lex, words[k])
    {
      if lex.isNoise(words[i]) || words[i] in EXCLUDED || AllDigits(words[i]) {
        continue;
      }
      return true;
    }
    return false;
  }

  /** The expected titles, less their bracketed groups and whatever leaves no usable word. */
  function Expected(lex: Lex, titles: seq<string>): seq<set<string>> {
    if titles == [] then []
    else
      var words := NonNoise(lex, Brackets.Outside(titles[|titles| - 1]));
      Expected(lex, titles[..|titles| - 1]) + if words != {} then [words] else []
  }

  /** How many of the files carry evidence, and how many of those match. */
  function Tally(lex: Lex, files: seq<File>, expected: seq<set<string>>): (nat, nat) {
    if files == [] then (0, 0)
    else
      var (n, m) := Tally(lex, files[..|files| - 1], expected);
      var f := files[|files| - 1];
      if !Interpretable(lex, f) then (n, m) else (n + 1, if MatchesSome(lex, f, expected) then m + 1 else m)
  }

  predicate TitlesDecide(lex: Lex, files: seq<File>, expected: seq<set<string>>) {
    expected != [] && Tally(lex, files, expected).0 >= 3 && 2 * Tally(lex, files, expected).0 >= |files|
  }

  predicate TitlesAccept(lex: Lex, files: seq<File>, expected: seq<set<string>>) {
    2 * Tally(lex, files, expected).1 >= Tally(lex, files, expected).0
  }

  // ---------------------------------------------------------------- the verdict

  /** (last, parent): the last segment of the first file's directory and the one above it. */
  function SplitReleaseDir(files: seq<File>): (string, string) {
    if files == [] then ("", "")
    else
      var d := files[0].dir;
      (if d == [] then "." else d[|d| - 1], if |d| < 2 then "" else d[|d| - 2])
  }

  function DirVerdict(lex: Lex, files: seq<File>, title: set<string>, artist: set<string>): bool {
    var (last, parent) := SplitReleaseDir(files);
    var segment := if NonNoise(lex, StripTails(last)) == {} && parent != "" then parent else last;
    DirAccepts(NonNoise(lex, StripTails(segment)), title, artist)
  }

  function Judged(lex: Lex, input: Input): Verdict {
    var title, artist := NonNoise(lex, input.title), NonNoise(lex, input.artist);
    var expected := Expected(lex, input.trackTitles);
    if title == {} then Verdict(true, NoData)
    else if TitlesDecide(lex, input.files, expected) then
      Verdict(TitlesAccept(lex, input.files, expected), TrackTitles)
    else Verdict(DirVerdict(lex, input.files, title, artist), Directory)
  }

  method ExpectedTitles(lex: Lex, titles: seq<string>) returns (expected: seq<set<string>>)
    ensures expected == Expected(lex, titles)
  {
    expected := [];
    for n := 0 to |titles|
      invariant expected == Expected(lex, titles[..n])
    {
      assert titles[..n + 1][..n] == titles[..n];
      var stripped := Brackets.StripBracketedGroups(titles[n]);
      var words := NonNoise(lex, stripped);
      if |words| > 0 {
        expected := expected + [words];
      }
    }
    assert titles[..|titles|] == titles;
  }

  method CheckRelevance(lex: Lex, input: Input) returns (v: Verdict)
    ensures v == Judged(lex, input)
  {
    hide DirAccepts, StripTails, Interpretable, MatchesSome;
    var title, artist := NonNoise(lex, input.title), NonNoise(lex, input.artist);
    if |title| == 0 {
      return Verdict(true, NoData);
    }
    var expected := ExpectedTitles(lex, input.trackTitles);
    var total := |input.files|;
    if total > 0 && |expected| > 0 {
      var interpretableCount, matched := 0, 0;
      for n := 0 to total
        invariant (interpretableCount, matched) == Tally(lex, input.files[..n], expected)
      {
        assert input.files[..n + 1][..n] == input.files[..n];
        var usable := IsInterpretable(lex, input.files[n]);
        if !usable {
          continue;
        }
        interpretableCount := interpretableCount + 1;
        var hit := MatchesSomeTrack(lex, input.files[n], expected);
        if hit {
          matched := matched + 1;
        }
      }
      assert input.files[..total] == input.files;
      if interpretableCount >= 3 && 2 * interpretableCount >= total {
        return Verdict(2 * matched >= interpretableCount, TrackTitles);
      }
    }
    var (last, parent) := SplitReleaseDir(input.files);
    var stripped := StripTrailingBracketNoise(last);
    var ok;
    if |NonNoise(lex, stripped)| == 0 && parent != "" {
      ok := DirCheck(lex, parent, title, artist);
    } else {
      ok := DirCheck(lex, last, title, artist);
    }
    v := Verdict(ok, Directory);
  }

  // ---------------------------------------------------------------- what the verdict depends on

  lemma {:induction false} TallyIgnoresDirectories(lex: Lex, a: seq<File>, b: seq<File>, expected: seq<set<string>>)
    requires |a| == |b| && forall i | 0 <= i < |a| :: a[i].name == b[i].name
    ensures Tally(lex, a, expected) == Tally(lex, b, expected)
  {
    if a != [] {
      TallyIgnoresDirectories(lex, a[..|a| - 1], b[..|b| - 1], expected);
    }
  }

  /** When the track titles decide, they decide alone: the files may lie in any directories at all. */
  lemma TitlesIgnoreDirectories(lex: Lex, input: Input, files: seq<File>)
    requires Judged(lex, input).source == TrackTitles
    requires |files| == |input.files| && forall i | 0 <= i < |files| :: files[i].name == input.files[i].name
    ensures Judged(lex, input.(files := files)) == Judged(lex, input)
  {
    TallyIgnoresDirectories(lex, input.files, files, Expected(lex, input.trackTitles));
  }

  /** A last segment with a usable word is the only one judged; its parent never gets a second try. */
  lemma NoSecondTry(lex: Lex, input: Input, files: seq<File>)
    requires input.files != [] && files != [] && input.files[0].dir != [] && files[0].dir != []
    requires |files| == |input.files| && forall i | 0 <= i < |files| :: files[i].name == input.files[i].name
    requires files[0].dir[|files[0].dir| - 1] == input.files[0].dir[|input.files[0].dir| - 1]
    requires NonNoise(lex, StripTails(files[0].dir[|files[0].dir| - 1])) != {}
    ensures Judged(lex, input.(files := files)) == Judged(lex, input)
  {
    hide NonNoise, StripTails, DirAccepts, Tally, Expected;
    TallyIgnoresDirectories(lex, input.files, files, Expected(lex, input.trackTitles));
    var last := files[0].dir[|files[0].dir| - 1];
    assert SplitReleaseDir(files).0 == last == SplitReleaseDir(input.files).0;
    LastAlone(lex, files, NonNoise(lex, input.title), NonNoise(lex, input.artist));
    LastAlone(lex, input.files, NonNoise(lex, input.title), NonNoise(lex, input.artist));
  }

  lemma LastAlone(lex: Lex, files: seq<File>, title: set<string>, artist: set<string>)
    requires NonNoise(lex, StripTails(SplitReleaseDir(files).0)) != {}
    ensures DirVerdict(lex, files, title, artist)
         == DirAccepts(NonNoise(lex, StripTails(SplitReleaseDir(files).0)), title, artist)
  {
  }

  lemma {:induction false} MoreTitlesMatchMore(lex: Lex, files: seq<File>, a: seq<set<string>>, b: seq<set<string>>)
    requires forall t | t in a :: t in b
    ensures Tally(lex, files, a).0 == Tally(lex, files, b).0
    ensures Tally(lex, files, a).1 <= Tally(lex, files, b).1
  {
    if files != [] {
      MoreTitlesMatchMore(lex, files[..|files| - 1], a, b);
      var f := files[|files| - 1];
      if MatchesSome(lex, f, a) {
        var i :| 0 <= i < |a| && TitleCovered(NonNoise(lex, lex.trackName(f.name)), a[i]);
        assert a[i] in b;
        var j :| 0 <= j < |b| && b[j] == a[i];
      }
    }
  }

  lemma {:induction false} ExpectedGrows(lex: Lex, a: seq<string>, t: set<string>, b: seq<string>)
    requires forall s | s in a :: s in b
    ensures t in Expected(lex, a) ==> t in Expected(lex, b)
  {
    if a != [] {
      assert a[|a| - 1] in a;
      ExpectedGrows(lex, a[..|a| - 1], t, b);
      ExpectedHas(lex, b, a[|a| - 1]);
    }
  }

  lemma {:induction false} ExpectedHas(lex: Lex, titles: seq<string>, s: string)
    requires s in titles
    ensures var words := NonNoise(lex, Brackets.Outside(s)); words != {} ==> words in Expected(lex, titles)
  {
    if titles[|titles| - 1] != s {
      ExpectedHas(lex, titles[..|titles| - 1], s);
    }
  }

  /** An edition with more tracks, in whatever order, never turns an acceptance by titles into a rejection. */
  lemma MoreTitlesKeepAcceptance(lex: Lex, input: Input, titles: seq<string>)
    requires Judged(lex, input) == Verdict(true, TrackTitles)
    requires forall s | s in input.trackTitles :: s in titles
    ensures Judged(lex, input.(trackTitles := titles)) == Verdict(true, TrackTitles)
  {
    var a, b := Expected(lex, input.trackTitles), Expected(lex, titles);
    forall t | t in a ensures t in b {
      ExpectedGrows(lex, input.trackTitles, t, titles);
    }
    MoreTitlesMatchMore(lex, input.files, a, b);
    assert a[0] in b;
  }
}
