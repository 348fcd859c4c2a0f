/**
 What a group of a manual search shows, in terms of its files alone: counts, sums, the most common
 attributes and the score, for every list of files and over every run of a session.
*/
module SearchGroups {
  import opened Basics
  import opened SearchResults
  import opened Modal
  import opened SearchSessions

  function Size(): SearchResult -> int {
    (f: SearchResult) => f.size
  }

  function Duration(): SearchResult -> int {
    (f: SearchResult) => f.duration
  }

  function FormatPoints(): SearchResult -> real {
    (f: SearchResult) => FormatScore(f.filename)
  }

  predicate IsAudio(ext: string) {
    ext in {".flac", ".mp3", ".m4a", ".aac", ".ogg", ".opus", ".wav", ".wma", ".ape", ".wv", ".alac"}
  }

  function Audio(lib: Lib): SearchResult -> bool {
    (f: SearchResult) => IsAudio(lib.extOf(f.filename))
  }

  /** Audio files with the extension `ext`. */
  function AudioAs(lib: Lib, ext: string): SearchResult -> bool {
    (f: SearchResult) => IsAudio(ext) && lib.extOf(f.filename) == ext
  }

  datatype Attribute = BitRate | SampleRate | BitDepth

  function ValueOf(f: SearchResult, a: Attribute): int {
    match a
    case BitRate => f.bitRate
    case SampleRate => f.sampleRate
    case BitDepth => f.bitDepth
  }

  function With(a: Attribute, v: int): SearchResult -> bool {
    (f: SearchResult) => ValueOf(f, a) == v
  }

  function ShownAs(lib: Lib, x: SearchFile): SearchResult -> bool {
    (f: SearchResult) => x == SearchFile(f.filename, lib.baseOf(f.filename), f.size, f.bitRate, f.duration,
                                         f.sampleRate, f.bitDepth, f.variableBitRate)
  }

  /** `v` is the value most files have among those that are not zero, ties to the smaller; 0 if all are. */
  ghost predicate MostCommon(files: seq<SearchResult>, a: Attribute, v: int) {
    if exists f :: f in files && ValueOf(f, a) != 0 then
      && v != 0 && CountBy(files, With(a, v)) > 0
      && forall u | u != 0 && u != v ::
           CountBy(files, With(a, u)) < CountBy(files, With(a, v))
           || (CountBy(files, With(a, u)) == CountBy(files, With(a, v)) && (CountBy(files, With(a, u)) > 0 ==> v < u))
    else v == 0
  }

  /** The extension, without its dot, that most audio files have, ties to the smaller. */
  ghost predicate MostCommonFormat(lib: Lib, files: seq<SearchResult>, format: string) {
    if CountBy(files, Audio(lib)) == 0 then format == ""
    else
      exists ext ::
        && |ext| > 0 && ext[0] == '.' && format == ext[1..] && CountBy(files, AudioAs(lib, ext)) > 0
        && forall e | e != ext ::
             CountBy(files, AudioAs(lib, e)) < CountBy(files, AudioAs(lib, ext))
             || (CountBy(files, AudioAs(lib, e)) == CountBy(files, AudioAs(lib, ext)) && StrLess(ext, e))
  }

  ghost predicate Shows(lib: Lib, g: GroupBody, peer: string, dir: string, files: seq<SearchResult>) {
    && g.peer == peer && g.folder == dir && g.title == lib.baseOf(dir) && g.parent == lib.baseOf(lib.dirOf(dir))
    && g.trackCount == CountBy(files, Audio(lib))
    && g.sizeBytes == SumBy(files, Size())
    && g.durationSeconds
       == (if files != [] && (forall f | f in files :: f.duration > 0) then SumBy(files, Duration()) else 0)
    && (g.variableBitRate <==> exists f :: f in files && f.variableBitRate)
    && MostCommon(files, BitRate, g.bitRate) && MostCommon(files, SampleRate, g.sampleRate)
    && MostCommon(files, BitDepth, g.bitDepth) && MostCommonFormat(lib, files, g.format)
    && (if files == [] then !g.freeUploadSlot && g.queueLength == 0 && g.uploadSpeed == 0 && g.score == 0.3
        else
          var last := files[|files| - 1];
          && g.freeUploadSlot == last.hasFreeUploadSlot && g.queueLength == last.queueLength
          && g.uploadSpeed == last.uploadSpeed
          && g.score == RealSumBy(files, FormatPoints()) / |files| as real
                        + (if last.hasFreeUploadSlot then 0.7 else 0.0) + (if last.queueLength == 0 then 0.3 else 0.0)
                        + g.bitRate as real / 1000.0)
    && forall x :: g.files[x] == CountBy(files, ShownAs(lib, x))
  }

  // ---------------------------------------------------------------- the loop's tally

  /** What one more file does to each of the numbers. */
  lemma FileAdds(lib: Lib, t: Tally, f: SearchResult)
    ensures var u := WithFile(lib, t, f);
            && u.size == t.size + f.size && u.formatScore == t.formatScore + FormatPoints()(f)
            && u.allDurations == (t.allDurations && f.duration > 0)
            && (f.duration > 0 ==> u.duration == t.duration + f.duration)
            && u.variable == (t.variable || f.variableBitRate)
            && u.exts == if IsAudio(lib.extOf(f.filename)) then t.exts + [lib.extOf(f.filename)] else t.exts
  {
  }

  lemma TallySnoc(lib: Lib, files: seq<SearchResult>, f: SearchResult)
    ensures TallyOf(lib, files + [f]) == WithFile(lib, TallyOf(lib, files), f)
  {
    assert (files + [f])[..|files|] == files;
  }

  lemma NothingTallied(lib: Lib)
    ensures var t := TallyOf(lib, []);
            && t.size == SumBy([], Size()) && t.formatScore == RealSumBy([], FormatPoints())
            && t.allDurations && t.duration == SumBy([], Duration()) && !t.variable
            && |t.exts| == CountBy([], Audio(lib))
  {
  }

  lemma {:induction false} TallyAddsUp(lib: Lib, files: seq<SearchResult>)
    ensures var t := TallyOf(lib, files);
            && t.size == SumBy(files, Size())
            && t.formatScore == RealSumBy(files, FormatPoints())
  {
    hide FormatPoints, Size, SumBy, RealSumBy, TallyOf, WithFile;
    if files == [] {
      NothingTallied(lib);
    } else {
      var init, last := files[..|files| - 1], files[|files| - 1];
      TallyAddsUp(lib, init);
      assert files == init + [last];
      SizeSnoc(lib, init, last);
    }
  }

  lemma SizeSnoc(lib: Lib, files: seq<SearchResult>, f: SearchResult)
    ensures TallyOf(lib, files + [f]).size - SumBy(files + [f], Size())
         == TallyOf(lib, files).size - SumBy(files, Size())
    ensures TallyOf(lib, files + [f]).formatScore - RealSumBy(files + [f], FormatPoints())
         == TallyOf(lib, files).formatScore - RealSumBy(files, FormatPoints())
  {
    hide FormatPoints, SumBy, RealSumBy, TallyOf, WithFile;
    TallySnoc(lib, files, f);
    FileAdds(lib, TallyOf(lib, files), f);
    SumBySnoc(files, f, Size());
    RealSumBySnoc(files, f, FormatPoints());
  }

  lemma {:induction false} TallyTracks(lib: Lib, files: seq<SearchResult>)
    ensures |TallyOf(lib, files).exts| == CountBy(files, Audio(lib))
  {
    hide FormatPoints, CountBy, TallyOf, WithFile, IsAudio;
    if files == [] {
      NothingTallied(lib);
    } else {
      var init, last := files[..|files| - 1], files[|files| - 1];
      TallyTracks(lib, init);
      assert files == init + [last];
      TallySnoc(lib, init, last);
      FileAdds(lib, TallyOf(lib, init), last);
      CountBySnoc(init, last, Audio(lib));
    }
  }

  lemma {:induction false} TallyDurations(lib: Lib, files: seq<SearchResult>)
    ensures var t := TallyOf(lib, files);
            && (t.allDurations <==> forall f | f in files :: f.duration > 0)
            && (t.allDurations ==> t.duration == SumBy(files, Duration()))
            && (t.variable <==> exists f :: f in files && f.variableBitRate)
  {
    hide FormatPoints, SumBy, TallyOf, WithFile;
    if files == [] {
      NothingTallied(lib);
    } else {
      var init, last := files[..|files| - 1], files[|files| - 1];
      TallyDurations(lib, init);
      assert files == init + [last];
      TallySnoc(lib, init, last);
      FileAdds(lib, TallyOf(lib, init), last);
      SumBySnoc(init, last, Duration());
    }
  }

  lemma {:induction false} TallyCountsExts(lib: Lib, files: seq<SearchResult>, ext: string)
    ensures multiset(TallyOf(lib, files).exts)[ext] == CountBy(files, AudioAs(lib, ext))
  {
    if files != [] {
      hide FormatPoints, CountBy, TallyOf, WithFile, IsAudio;
      var init, last := files[..|files| - 1], files[|files| - 1];
      TallyCountsExts(lib, init, ext);
      assert files == init + [last];
      TallySnoc(lib, init, last);
      FileAdds(lib, TallyOf(lib, init), last);
      CountBySnoc(init, last, AudioAs(lib, ext));
    }
  }

  lemma {:induction false} TallyCountsFiles(lib: Lib, files: seq<SearchResult>, x: SearchFile)
    ensures TallyOf(lib, files).files[x] == CountBy(files, ShownAs(lib, x))
  {
    hide FormatScore;
    if files != [] {
      var init, last := files[..|files| - 1], files[|files| - 1];
      TallyCountsFiles(lib, init, x);
      assert files == init + [last];
      CountBySnoc(init, last, ShownAs(lib, x));
      hide CountBy;
    }
  }

  function Values(files: seq<SearchResult>, a: Attribute): seq<int> {
    seq(|files|, i requires 0 <= i < |files| => ValueOf(files[i], a))
  }

  lemma {:induction false} TallyLists(lib: Lib, files: seq<SearchResult>)
    ensures var t := TallyOf(lib, files);
            && t.bitRates == Values(files, BitRate) && t.sampleRates == Values(files, SampleRate)
            && t.bitDepths == Values(files, BitDepth)
            && (files != [] ==>
                  var last := files[|files| - 1];
                  && t.freeSlot == last.hasFreeUploadSlot && t.queueLength == last.queueLength
                  && t.uploadSpeed == last.uploadSpeed)
  {
    hide FormatScore;
    if files != [] {
      TallyLists(lib, files[..|files| - 1]);
    }
  }

  lemma {:induction false} NonZeroCounts(files: seq<SearchResult>, a: Attribute, v: int)
    ensures multiset(NonZero(Values(files, a)))[v] == if v == 0 then 0 else CountBy(files, With(a, v))
  {
    hide CountBy, NonZero, ValueOf;
    if files == [] {
      NothingCounted(a, v);
    } else {
      var init, last := files[..|files| - 1], files[|files| - 1];
      NonZeroCounts(init, a, v);
      assert files == init + [last];
      CountBySnoc(init, last, With(a, v));
      assert Values(files, a) == Values(init, a) + [ValueOf(last, a)];
      hide Values;
      NonZeroSnoc(Values(init, a), ValueOf(last, a));
    }
  }

  lemma NothingCounted(a: Attribute, v: int)
    ensures NonZero(Values([], a)) == [] && CountBy([], With(a, v)) == 0
  {
  }

  lemma NonZeroSnoc(values: seq<int>, v: int)
    ensures NonZero(values + [v]) == NonZero(values) + if v != 0 then [v] else []
  {
    assert (values + [v])[..|values|] == values;
  }

  lemma {:induction false} SomeCounted(files: seq<SearchResult>, a: Attribute, f: SearchResult)
    requires f in files
    ensures CountBy(files, With(a, ValueOf(f, a))) > 0
  {
    if files[0] != f {
      SomeCounted(files[1..], a, f);
    }
  }

  lemma {:induction false} CountedOccurs(files: seq<SearchResult>, a: Attribute, v: int)
    requires CountBy(files, With(a, v)) > 0
    ensures exists f :: f in files && ValueOf(f, a) == v
  {
    if ValueOf(files[0], a) != v {
      CountedOccurs(files[1..], a, v);
    }
  }

  lemma ModalIsMostCommon(files: seq<SearchResult>, a: Attribute)
    ensures MostCommon(files, a, ModalInt(Values(files, a)))
  {
    var s := multiset(NonZero(Values(files, a)));
    forall v ensures s[v] == if v == 0 then 0 else CountBy(files, With(a, v)) {
      NonZeroCounts(files, a, v);
    }
    hide CountBy, With, Values, NonZero, ValueOf;
    if f :| f in files && ValueOf(f, a) != 0 {
      SomeCounted(files, a, f);
      assert ValueOf(f, a) in s;
    } else {
      forall v ensures v !in s {
        if v in s {
          CountedOccurs(files, a, v);
        }
      }
      assert s == multiset{};
    }
  }

  lemma AudioStartsWithDot(ext: string)
    requires IsAudio(ext)
    ensures |ext| > 0 && ext[0] == '.'
  {
    assert ext == ".flac" || ext == ".mp3" || ext == ".m4a" || ext == ".aac" || ext == ".ogg" || ext == ".opus"
           || ext == ".wav" || ext == ".wma" || ext == ".ape" || ext == ".wv" || ext == ".alac";
  }

  lemma {:induction false} CountedIsAudio(lib: Lib, files: seq<SearchResult>, ext: string)
    requires CountBy(files, AudioAs(lib, ext)) > 0
    ensures IsAudio(ext)
  {
    hide IsAudio;
    if !AudioAs(lib, ext)(files[0]) {
      CountedIsAudio(lib, files[1..], ext);
    }
  }

  lemma ModalTextIs(exts: seq<string>)
    ensures exts == [] ==> ModalText(exts) == ""
    ensures exts != [] ==>
              var ext := ModalText(exts);
              && multiset(exts)[ext] > 0
              && forall e | e != ext ::
                   multiset(exts)[e] < multiset(exts)[ext]
                   || (multiset(exts)[e] == multiset(exts)[ext] && StrLess(ext, e))
  {
    TextLessTotal();
    hide StrLess;
    if exts != [] {
      assert exts[0] in multiset(exts);
      forall e | e !in multiset(exts) ensures multiset(exts)[e] == 0 {}
    }
  }

  lemma FormatIsMostCommon(lib: Lib, files: seq<SearchResult>)
    ensures MostCommonFormat(lib, files, TrimDot(ModalText(TallyOf(lib, files).exts)))
  {
    hide TallyOf, CountBy, AudioAs, Audio, IsAudio, StrLess, ModalText;
    var exts := TallyOf(lib, files).exts;
    TallyTracks(lib, files);
    ModalTextIs(exts);
    if exts != [] {
      var ext := ModalText(exts);
      TallyCountsExts(lib, files, ext);
      CountedIsAudio(lib, files, ext);
      AudioStartsWithDot(ext);
      forall e | e != ext
        ensures CountBy(files, AudioAs(lib, e)) < CountBy(files, AudioAs(lib, ext))
                || (CountBy(files, AudioAs(lib, e)) == CountBy(files, AudioAs(lib, ext)) && StrLess(ext, e))
      {
        TallyCountsExts(lib, files, e);
      }
    }
  }

  lemma ScoreIs(t: Tally, n: nat, bitRate: int)
    requires n > 0
    ensures Score(t, n, bitRate) == t.formatScore / n as real + (if t.freeSlot then 0.7 else 0.0)
                                    + (if t.queueLength == 0 then 0.3 else 0.0) + bitRate as real / 1000.0
  {
  }

  lemma NothingShown(lib: Lib, a: Accum, version: nat)
    requires a.files == []
    ensures var g := GroupOf(lib, a, version);
            !g.freeUploadSlot && g.queueLength == 0 && g.uploadSpeed == 0 && g.score == 0.3
  {
  }

  /** The display shape of any list of files. */
  lemma GroupShows(lib: Lib, a: Accum, version: nat)
    ensures Shows(lib, GroupOf(lib, a, version), a.peer, a.dir, a.files)
  {
    hide MostCommon, MostCommonFormat, ModalInt, ModalText, TallyOf, Score, TrimDot, CountBy, SumBy, RealSumBy, Size,
         Duration, FormatPoints, Audio, ShownAs, Values;
    var t := TallyOf(lib, a.files);
    TallyAddsUp(lib, a.files);
    TallyTracks(lib, a.files);
    TallyDurations(lib, a.files);
    TallyLists(lib, a.files);
    ModalIsMostCommon(a.files, BitRate);
    ModalIsMostCommon(a.files, SampleRate);
    ModalIsMostCommon(a.files, BitDepth);
    FormatIsMostCommon(lib, a.files);
    if a.files != [] {
      ScoreIs(t, |a.files|, ModalInt(t.bitRates));
    } else {
      NothingShown(lib, a, version);
    }
    forall x ensures t.files[x] == CountBy(a.files, ShownAs(lib, x)) {
      TallyCountsFiles(lib, a.files, x);
    }
  }

  /** So after any run each group shows exactly the files of its id among the first 2000 of the stream. */
  lemma SessionShows(lib: Lib, now: int, es: seq<SessionEvent>, id: int)
    ensures var (s, stream) := (SessionRun(lib, NewSession(now), es), Stream(es));
            var files := OfGroup(lib, stream[..Min(|stream|, 2000)], id);
            && s.total == Min(|stream|, 2000) && (s.truncated <==> |stream| > 2000)
            && (id in s.groups <==> files != [])
            && (id in s.groups ==> Shows(lib, s.groups[id], files[0].username, lib.dirOf(files[0].filename), files))
  {
    hide GroupOf, Shows, AddAll;
    IncrementalEqualsBatch(lib, now, es);
    var s := SessionRun(lib, NewSession(now), es);
    GroupingIsFiltering(lib, Prefix(Stream(es)), id);
    if id in s.groups {
      GroupShows(lib, s.raw[id], s.groups[id].version);
    }
  }
}
