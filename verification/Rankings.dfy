/**
 What a ranking lists and in which order, in terms of the search results alone: the files of each
 candidate, the format it was reduced to, its score, and which of two candidates comes first.
*/
module Rankings {
  import opened Basics
  import opened SearchResults
  import opened Formats
  import opened Reliability
  import opened Ranking

  /** Lossless, or lossy at the configured bit rate. */
  predicate AboveFloor(cfg: Config, r: SearchResult) {
    HasSuffix(Lower(r.filename), ".flac") || r.bitRate >= cfg.minBitrate
  }

  /** The results of one user's directory that are above the floor. */
  function Offered(cfg: Config, results: seq<SearchResult>, user: string, dir: string): seq<SearchResult> {
    if results == [] then []
    else
      var r := results[0];
      (if AboveFloor(cfg, r) && r.username == user && cfg.dirOf(r.filename) == dir then [r] else [])
      + Offered(cfg, results[1..], user, dir)
  }

  function HasExt(ext: string): SearchResult -> bool {
    (r: SearchResult) => ExtOf(r.filename) == ext
  }

  /** The documented 1, 0.5 and 0.2 of a file's format. */
  function FormatPoints(filename: string): real {
    if HasSuffix(Lower(filename), ".flac") then 1.0 else if HasSuffix(Lower(filename), ".mp3") then 0.5 else 0.2
  }

  function FilePoints(w: Weights): SearchResult -> real {
    (r: SearchResult) => w.format * FormatPoints(r.filename) + w.bitrate * r.bitRate as real / 1000.0
  }

  ghost predicate ScoredAs(cfg: Config, c: Candidate)
    requires c.files != []
  {
    && c.score == RealSumBy(c.files, FilePoints(cfg.w)) + cfg.w.fileCount * |c.files| as real
                  + cfg.w.reliability * ((if c.files[0].hasFreeUploadSlot then 0.7 else 0.0)
                                         + (if c.files[0].queueLength == 0 then 0.3 else 0.0))
                  + cfg.w.knownUser * cfg.history(c.username)
    && (c.lastResort <==> cfg.history(c.username) <= 0.25)
  }

  /**
   `kept` is preferred to every other extension offered: more points, or as many points and more files,
   or as many of both and the smaller name.
  */
  ghost predicate BestFormat(offered: seq<SearchResult>, kept: SearchResult) {
    forall r | r in offered && ExtOf(r.filename) != ExtOf(kept.filename) ::
      var (n, m) := (CountBy(offered, HasExt(ExtOf(kept.filename))), CountBy(offered, HasExt(ExtOf(r.filename))));
      || FormatPoints(kept.filename) > FormatPoints(r.filename)
      || (FormatPoints(kept.filename) == FormatPoints(r.filename)
          && (n > m || (n == m && StrLess(ExtOf(kept.filename), ExtOf(r.filename)))))
  }

  /** Files without an extension outrank every other format offered. */
  ghost predicate BareIsBest(offered: seq<SearchResult>) {
    && (exists r :: r in offered && ExtOf(r.filename) != "")
    && exists r :: r in offered && ExtOf(r.filename) == "" && BestFormat(offered, r)
  }

  /** `a` is listed before `b`. */
  ghost predicate Precedes(a: Candidate, b: Candidate)
    requires a.files != [] && b.files != []
  {
    && (a.lastResort ==> b.lastResort)
    && (a.lastResort == b.lastResort ==>
          && a.score >= b.score
          && (a.score == b.score ==>
                && (a.username == b.username || StrLess(a.username, b.username))
                && (a.username == b.username ==> StrLess(a.files[0].filename, b.files[0].filename))))
  }

  // ---------------------------------------------------------------- proofs

  /** Only the letters A to Z are lowered, each to its own. */
  lemma LowerIs(s: string, i: nat, k: nat)
    requires i < |s| && k < 26
    ensures |Lower(s)| == |s|
    ensures s[i] == "ABCDEFGHIJKLMNOPQRSTUVWXYZ"[k] ==> Lower(s)[i] == "abcdefghijklmnopqrstuvwxyz"[k]
    ensures s[i] !in "ABCDEFGHIJKLMNOPQRSTUVWXYZ" ==> Lower(s)[i] == s[i]
  {
    var upper, lower := "ABCDEFGHIJKLMNOPQRSTUVWXYZ", "abcdefghijklmnopqrstuvwxyz";
    if 'A' <= s[i] <= 'Z' {
      assert s[i] == upper[s[i] as int - 'A' as int];
    }
  }

  lemma FormatPointsAre(filename: string)
    ensures FormatScore(filename) == FormatPoints(filename)
  {
  }

  lemma AboveFloorIs(cfg: Config, r: SearchResult)
    ensures PassesFloor(cfg, r) <==> AboveFloor(cfg, r)
  {
  }

  lemma {:induction false} OfferedSnoc(cfg: Config, results: seq<SearchResult>, r: SearchResult, user: string,
                                       dir: string)
    ensures Offered(cfg, results + [r], user, dir)
         == Offered(cfg, results, user, dir)
            + if AboveFloor(cfg, r) && r.username == user && cfg.dirOf(r.filename) == dir then [r] else []
  {
    hide AboveFloor;
    if results == [] {
      assert [r][1..] == [] && [] + [r] == [r];
    } else {
      assert (results + [r])[1..] == results[1..] + [r];
      OfferedSnoc(cfg, results[1..], r, user, dir);
    }
  }

  lemma {:induction false} OfferedIsGroup(cfg: Config, results: seq<SearchResult>, k: Key)
    ensures Offered(cfg, results, k.0, k.1) == Group(cfg, results, k)
  {
    hide AboveFloor, PassesFloor;
    if results == [] {
      NothingOffered(cfg, k);
    } else {
      var init, last := results[..|results| - 1], results[|results| - 1];
      assert results == init + [last];
      OfferedIsGroup(cfg, init, k);
      OfferedSnoc(cfg, init, last, k.0, k.1);
      AboveFloorIs(cfg, last);
      hide Offered;
    }
  }

  lemma NothingOffered(cfg: Config, k: Key)
    ensures Offered(cfg, [], k.0, k.1) == [] && Group(cfg, [], k) == []
  {
  }

  lemma {:induction false} BucketCounts(files: seq<SearchResult>, ext: string)
    ensures |Bucket(files, ext)| == CountBy(files, HasExt(ext))
  {
    hide ExtOf;
    if files != [] {
      var init, last := files[..|files| - 1], files[|files| - 1];
      BucketCounts(init, ext);
      assert files == init + [last];
      CountBySnoc(init, last, HasExt(ext));
    }
  }

  lemma {:induction false} FilesScoreIs(w: Weights, files: seq<SearchResult>)
    ensures FilesScore(w, files) == RealSumBy(files, FilePoints(w))
  {
    hide FormatScore, FormatPoints;
    if files != [] {
      var init, last := files[..|files| - 1], files[|files| - 1];
      FilesScoreIs(w, init);
      assert files == init + [last];
      RealSumBySnoc(init, last, FilePoints(w));
      FormatPointsAre(last.filename);
    }
  }

  /** An extension is ahead of another exactly as their files say. */
  lemma AheadIs(offered: seq<SearchResult>, kept: SearchResult, r: SearchResult)
    ensures var (a, b) := (ExtOf(kept.filename), ExtOf(r.filename));
            Ahead(offered, a, b) <==>
              var (n, m) := (CountBy(offered, HasExt(a)), CountBy(offered, HasExt(b)));
              || FormatPoints(kept.filename) > FormatPoints(r.filename)
              || (FormatPoints(kept.filename) == FormatPoints(r.filename) && (n > m || (n == m && StrLess(a, b))))
  {
    ScoreIsExtScore(kept.filename);
    ScoreIsExtScore(r.filename);
    FormatPointsAre(kept.filename);
    FormatPointsAre(r.filename);
    BucketCounts(offered, ExtOf(kept.filename));
    BucketCounts(offered, ExtOf(r.filename));
    hide ExtOf, FormatScore, FormatPoints, ExtScore, Bucket, CountBy, HasExt;
  }

  lemma BestFormatIs(offered: seq<SearchResult>, kept: SearchResult)
    requires kept in offered
    ensures BestFormat(offered, kept) <==> Foremost(offered, Exts(offered), ExtOf(kept.filename))
  {
    hide ExtOf, FormatPoints, CountBy, HasExt, StrLess, Ahead;
    forall r | r in offered
      ensures var n := CountBy(offered, HasExt(ExtOf(kept.filename)));
              var m := CountBy(offered, HasExt(ExtOf(r.filename)));
              Ahead(offered, ExtOf(kept.filename), ExtOf(r.filename)) <==>
                || FormatPoints(kept.filename) > FormatPoints(r.filename)
                || (FormatPoints(kept.filename) == FormatPoints(r.filename)
                    && (n > m || (n == m && StrLess(ExtOf(kept.filename), ExtOf(r.filename)))))
    {
      AheadIs(offered, kept, r);
    }
    forall e | e in Exts(offered) ensures exists r :: r in offered && ExtOf(r.filename) == e {}
    forall r | r in offered ensures ExtOf(r.filename) in Exts(offered) {}
  }

  lemma BareIsBlind(offered: seq<SearchResult>)
    ensures BareIsBest(offered) <==> Blind(offered)
  {
    hide ExtOf, BestFormat, Ahead;
    if r :| r in offered && ExtOf(r.filename) == "" {
      forall s | s in offered && ExtOf(s.filename) == ""
        ensures BestFormat(offered, s) <==> Foremost(offered, Exts(offered), "")
      {
        BestFormatIs(offered, s);
      }
      assert "" in Exts(offered);
    }
    forall e | e in Exts(offered) ensures exists r :: r in offered && ExtOf(r.filename) == e {}
    forall r | r in offered ensures ExtOf(r.filename) in Exts(offered) {}
  }

  lemma ScoredAsWeighted(cfg: Config, username: string, files: seq<SearchResult>)
    requires files != []
    ensures ScoredAs(cfg, CandidateOf(cfg, username, files))
  {
    FilesScoreIs(cfg.w, files);
    hide FilesScore, RealSumBy, FilePoints;
  }

  /**
   Every candidate: the files of one user's directory above the floor, in one format, one per track, no
   track of the format missing; scored as documented; and unless files without an extension are the
   best format, that format is the best one offered.
  */
  lemma CandidateShows(cfg: Config, results: seq<SearchResult>, orders: Orders, out: seq<Candidate>, i: nat)
    requires IsRanking(cfg, results, orders, out) && i < |out|
    ensures out[i].files != [] && ScoredAs(cfg, out[i])
    ensures var (c, kept) := (out[i], out[i].files[0]);
            var offered := Offered(cfg, results, c.username, cfg.dirOf(kept.filename));
            && (forall f | f in c.files :: f in offered && ExtOf(f.filename) == ExtOf(kept.filename))
            && (forall m, n | 0 <= m < n < |c.files| ::
                  cfg.trackKey(c.files[m].filename) != cfg.trackKey(c.files[n].filename))
            && (forall r | r in offered && ExtOf(r.filename) == ExtOf(kept.filename) ::
                  exists f :: f in c.files && cfg.trackKey(f.filename) == cfg.trackKey(r.filename))
            && (BareIsBest(offered) || BestFormat(offered, kept))
  {
    hide ExtOf, Pick, Enumerates, Exts, Sorted, BestFormat, BareIsBest, ScoredAs, FilesScore, PeerScore, Offered, Group,
         Keys, PassesFloor, Reduced;
    var c := out[i];
    assert c in out;
    var k :| k in orders && c == CandidateFor(cfg, results, orders, k);
    var group := Group(cfg, results, k);
    GroupIs(cfg, results, k);
    ReducedShows(cfg, group, orders[k]);
    ScoredAsWeighted(cfg, k.0, Reduced(cfg, group, orders[k]));
    ReducedIs(cfg, group, orders[k]);
    assert c.files[0] in c.files && KeyOf(cfg, c.files[0]) == k;
    OfferedIsGroup(cfg, results, k);
  }

  lemma ReducedShows(cfg: Config, group: seq<SearchResult>, order: seq<string>)
    requires group != [] && Enumerates(order, Exts(group))
    ensures var files := Reduced(cfg, group, order);
            && files != []
            && (forall f | f in files :: f in group && ExtOf(f.filename) == ExtOf(files[0].filename))
            && (forall m, n | 0 <= m < n < |files| ::
                  cfg.trackKey(files[m].filename) != cfg.trackKey(files[n].filename))
            && (forall r | r in group && ExtOf(r.filename) == ExtOf(files[0].filename) ::
                  exists f :: f in files && cfg.trackKey(f.filename) == cfg.trackKey(r.filename))
            && (BareIsBest(group) || BestFormat(group, files[0]))
  {
    hide ExtOf, Pick, Enumerates, Exts, BestFormat, BareIsBest, Reduced, Blind;
    ReducedIs(cfg, group, order);
    var files := Reduced(cfg, group, order);
    assert files[0] in files;
    forall r | r in group && ExtOf(r.filename) == ExtOf(files[0].filename)
      ensures exists f :: f in files && cfg.trackKey(f.filename) == cfg.trackKey(r.filename)
    {
      assert HasTrack(files, cfg.trackKey, cfg.trackKey(r.filename));
      var j :| 0 <= j < |files| && cfg.trackKey(files[j].filename) == cfg.trackKey(r.filename);
      assert files[j] in files;
    }
    BareIsBlind(group);
    if !Blind(group) {
      KeptIsForemost(group, order, files[0]);
    }
  }

  lemma KeptIsForemost(group: seq<SearchResult>, order: seq<string>, kept: SearchResult)
    requires kept in group && Enumerates(order, Exts(group)) && !Blind(group)
    requires ExtOf(kept.filename) == Pick(group, order)
    ensures BestFormat(group, kept)
  {
    hide ExtOf, Pick, Enumerates, Blind, BestFormat;
    assert ExtOf(kept.filename) in Exts(group);
    var best := ForemostExists(group, Exts(group));
    PickIsForemost(group, order, best);
    BestFormatIs(group, kept);
  }

  lemma BeforePrecedes(a: Candidate, b: Candidate)
    requires a.files != [] && b.files != [] && Before(a, b)
    ensures Precedes(a, b)
  {
    hide StrLess;
  }

  lemma RankedBefore(cfg: Config, results: seq<SearchResult>, orders: Orders, out: seq<Candidate>, i: nat, j: nat)
    requires IsRanking(cfg, results, orders, out) && i < j < |out|
    ensures Before(out[i], out[j])
  {
    hide Before, CandidateFor, OrdersFor;
  }

  /** Best first: the higher score within a tier, then the smaller user name, then the smaller first file. */
  lemma BestFirst(cfg: Config, results: seq<SearchResult>, orders: Orders, out: seq<Candidate>, i: nat, j: nat)
    requires IsRanking(cfg, results, orders, out) && i < j < |out|
    ensures out[i].files != [] && out[j].files != [] && Precedes(out[i], out[j])
  {
    hide IsRanking, Before, Precedes, Offered, ScoredAs, BestFormat, BareIsBest;
    CandidateShows(cfg, results, orders, out, i);
    CandidateShows(cfg, results, orders, out, j);
    RankedBefore(cfg, results, orders, out, i, j);
    BeforePrecedes(out[i], out[j]);
  }

  /** Every directory with a file above the floor is listed, once. */
  lemma EveryDirectoryOnce(cfg: Config, results: seq<SearchResult>, orders: Orders, out: seq<Candidate>,
                           r: SearchResult)
    returns (i: nat)
    requires IsRanking(cfg, results, orders, out) && r in results && AboveFloor(cfg, r)
    ensures i < |out| && out[i].username == r.username && out[i].files != []
    ensures cfg.dirOf(out[i].files[0].filename) == cfg.dirOf(r.filename)
    ensures forall j | 0 <= j < |out| && j != i ::
              forall f | f in out[j].files :: f.username != r.username || cfg.dirOf(f.filename) != cfg.dirOf(r.filename)
  {
    hide IsRanking, PassesFloor, AboveFloor, Pick, ExtOf;
    AboveFloorIs(cfg, r);
    assert KeyOf(cfg, r) == (r.username, cfg.dirOf(r.filename));
    i := OneCandidatePerDirectory(cfg, results, orders, out, KeyOf(cfg, r));
    assert out[i].files[0] in out[i].files;
  }
}
