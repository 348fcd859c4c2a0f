/**
 The relevance gate's verdict, said about the words of the title, of the files and of the directory
 alone, for every input.
*/
module RelevanceVerdicts {
  import opened Basics
  import opened Relevance
  import Brackets

  /** Some word of it is not release-naming noise. */
  ghost predicate Usable(lex: Lex, s: string) {
    exists t :: t in lex.tokens(s) && !lex.isNoise(t)
  }

  /** A word that says nothing about a track. */
  predicate Placeholder(t: string) {
    t in ["track", "tracks", "untitled", "audiotrack", "unknown"]
    || (t != "" && forall i | 0 <= i < |t| :: t[i] in "0123456789")
  }

  ghost function Telling(lex: Lex): File -> bool {
    (f: File) => exists t :: t in lex.tokens(lex.trackName(f.name)) && !lex.isNoise(t) && !Placeholder(t)
  }

  /** Three quarters of the title's words, its bracketed groups apart, are in the file's name. */
  ghost predicate NamedLike(lex: Lex, f: File, title: string) {
    var words := NonNoise(lex, Brackets.Outside(title));
    Usable(lex, Brackets.Outside(title)) && 4 * |words * NonNoise(lex, lex.trackName(f.name))| >= 3 * |words|
  }

  ghost function Fitting(lex: Lex, titles: seq<string>): File -> bool {
    (f: File) => Telling(lex)(f) && exists s :: s in titles && NamedLike(lex, f, s)
  }

  /** At most a fifth of the title's words are missing, at most two fifths of the directory's unexplained. */
  ghost predicate CloseTo(lex: Lex, segment: string, input: Input) {
    var dir, title := NonNoise(lex, StripTails(segment)), NonNoise(lex, input.title);
    Usable(lex, StripTails(segment)) && 5 * |title - dir| <= |title|
    && 5 * |dir - title - NonNoise(lex, input.artist)| <= 2 * |dir|
  }

  lemma UsableIff(lex: Lex, s: string)
    ensures Usable(lex, s) <==> NonNoise(lex, s) != {}
  {
    if Usable(lex, s) {
      var t :| t in lex.tokens(s) && !lex.isNoise(t);
      assert t in NonNoise(lex, s);
    }
  }

  lemma TellingIff(lex: Lex, f: File)
    ensures Interpretable(lex, f) <==> Telling(lex)(f)
  {
    var words := lex.tokens(lex.trackName(f.name));
    forall t ensures Evidence(lex, t) <==> !lex.isNoise(t) && !Placeholder(t) {
      DigitsIff(t);
    }
    if Telling(lex)(f) {
      var t :| t in words && !lex.isNoise(t) && !Placeholder(t);
      var i :| 0 <= i < |words| && words[i] == t;
      assert Evidence(lex, words[i]);
    }
  }

  lemma DigitsIff(t: string)
    ensures AllDigits(t) <==> t != "" && forall i | 0 <= i < |t| :: t[i] in "0123456789"
  {
    forall c: char ensures '0' <= c <= '9' <==> c in "0123456789" {
      assert c in "0123456789" <==> c == '0' || c == '1' || c == '2' || c == '3' || c == '4' || c == '5' || c == '6'
                                    || c == '7' || c == '8' || c == '9';
    }
  }

  lemma {:induction false} ExpectedAre(lex: Lex, titles: seq<string>, words: set<string>)
    ensures words in Expected(lex, titles) <==>
            words != {} && exists s :: s in titles && words == NonNoise(lex, Brackets.Outside(s))
  {
    if titles != [] {
      var init, last := titles[..|titles| - 1], titles[|titles| - 1];
      ExpectedAre(lex, init, words);
      assert titles == init + [last];
    }
  }

  lemma FittingIff(lex: Lex, f: File, titles: seq<string>)
    ensures Interpretable(lex, f) && MatchesSome(lex, f, Expected(lex, titles)) <==> Fitting(lex, titles)(f)
  {
    hide Brackets.Outside, Interpretable, Telling;
    var words, expected := NonNoise(lex, lex.trackName(f.name)), Expected(lex, titles);
    TellingIff(lex, f);
    if MatchesSome(lex, f, expected) {
      var i :| 0 <= i < |expected| && TitleCovered(words, expected[i]);
      ExpectedAre(lex, titles, expected[i]);
      var s :| s in titles && expected[i] == NonNoise(lex, Brackets.Outside(s));
      UsableIff(lex, Brackets.Outside(s));
      assert NamedLike(lex, f, s);
    }
    if s :| s in titles && NamedLike(lex, f, s) {
      var title := NonNoise(lex, Brackets.Outside(s));
      UsableIff(lex, Brackets.Outside(s));
      ExpectedAre(lex, titles, title);
      var i :| 0 <= i < |expected| && expected[i] == title;
      assert words != {} by {
        assert words == {} ==> title * words == {};
      }
      assert TitleCovered(words, expected[i]);
    }
  }

  lemma {:induction false} TallyCounts(lex: Lex, files: seq<File>, titles: seq<string>)
    ensures Tally(lex, files, Expected(lex, titles))
         == (CountBy(files, Telling(lex)), CountBy(files, Fitting(lex, titles)))
  {
    hide Interpretable, MatchesSome, Expected, Telling, Fitting, CountBy;
    if files == [] {
      CountNone(Telling(lex));
      CountNone(Fitting(lex, titles));
    } else {
      var init, last := files[..|files| - 1], files[|files| - 1];
      TallyCounts(lex, init, titles);
      assert files == init + [last];
      CountBySnoc(init, last, Telling(lex));
      CountBySnoc(init, last, Fitting(lex, titles));
      TellingIff(lex, last);
      FittingIff(lex, last, titles);
    }
  }

  lemma CountNone(holds: File -> bool)
    ensures CountBy([], holds) == 0
  {
  }

  lemma SomeExpectedIff(lex: Lex, titles: seq<string>)
    ensures Expected(lex, titles) != [] <==> exists s :: s in titles && Usable(lex, Brackets.Outside(s))
  {
    hide Brackets.Outside;
    if Expected(lex, titles) != [] {
      ExpectedAre(lex, titles, Expected(lex, titles)[0]);
      var s :| s in titles && Expected(lex, titles)[0] == NonNoise(lex, Brackets.Outside(s));
      UsableIff(lex, Brackets.Outside(s));
    }
    if s :| s in titles && Usable(lex, Brackets.Outside(s)) {
      UsableIff(lex, Brackets.Outside(s));
      ExpectedAre(lex, titles, NonNoise(lex, Brackets.Outside(s)));
    }
  }

  /**
   A title without a usable word is accepted unjudged. Otherwise the track titles decide if there is
   one with a usable word, at least three files tell something and at least half of them do: then at
   least half of the telling ones must be named like one of the titles. Otherwise the directory decides.
  */
  lemma TitlesDecideIff(lex: Lex, input: Input)
    ensures var (v, telling) := (Judged(lex, input), CountBy(input.files, Telling(lex)));
            && (v.source == NoData <==> !Usable(lex, input.title))
            && (v.source == NoData ==> v.matches)
            && (v.source == TrackTitles <==>
                  && Usable(lex, input.title)
                  && (exists s :: s in input.trackTitles && Usable(lex, Brackets.Outside(s)))
                  && telling >= 3 && 2 * telling >= |input.files|)
            && (v.source == TrackTitles ==>
                  (v.matches <==> 2 * CountBy(input.files, Fitting(lex, input.trackTitles)) >= telling))
  {
    hide Tally, Expected, DirVerdict, Telling, Fitting, NonNoise, Brackets.Outside, Usable;
    UsableIff(lex, input.title);
    SomeExpectedIff(lex, input.trackTitles);
    TallyCounts(lex, input.files, input.trackTitles);
  }

  /** The directory of the first file, if there is one; a file in no directory lies in ".". */
  function FirstDir(files: seq<File>): seq<string> {
    if files == [] then [""] else if files[0].dir == [] then ["."] else files[0].dir
  }

  /**
   When the directory decides, the last segment of the first file's does, if it has a usable word
   outside its trailing groups, and else the one above, if there is one.
  */
  lemma DirectoryDecidesIff(lex: Lex, input: Input)
    requires Judged(lex, input).source == Directory
    ensures var d := FirstDir(input.files);
            Judged(lex, input).matches <==>
            if Usable(lex, StripTails(d[|d| - 1])) then CloseTo(lex, d[|d| - 1], input)
            else |d| > 1 && d[|d| - 2] != "" && CloseTo(lex, d[|d| - 2], input)
  {
    hide NonNoise, StripTails, Usable, DirAccepts, TitlesDecide, TitlesAccept, Expected;
    var d := FirstDir(input.files);
    var title, artist := NonNoise(lex, input.title), NonNoise(lex, input.artist);
    UsableIff(lex, StripTails(d[|d| - 1]));
    AcceptsIff(lex, d[|d| - 1], input);
    if |d| > 1 {
      AcceptsIff(lex, d[|d| - 2], input);
    }
    assert Judged(lex, input).matches == DirVerdict(lex, input.files, title, artist);
  }

  lemma AcceptsIff(lex: Lex, segment: string, input: Input)
    ensures DirAccepts(NonNoise(lex, StripTails(segment)), NonNoise(lex, input.title), NonNoise(lex, input.artist))
       <==> CloseTo(lex, segment, input)
  {
    hide NonNoise, StripTails;
    var dir, title := NonNoise(lex, StripTails(segment)), NonNoise(lex, input.title);
    var artist := NonNoise(lex, input.artist);
    UsableIff(lex, StripTails(segment));
    assert dir - title - artist == dir - (title + artist);
    if dir != {} {
      DirectoryToleratesExactly(dir, title, artist);
    }
  }
}
