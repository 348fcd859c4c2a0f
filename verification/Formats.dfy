/**
 One release, one format: dedupeTracks buckets a directory's files by extension, picks a bucket while
 ranging over a map, and keeps one file per track of it.
*/
module Formats {
  import opened Basics
  import opened SearchResults

  // ---------------------------------------------------------------- extensions

  function Slashed(s: string): string {
    seq(|s|, i requires 0 <= i < |s| => if s[i] == '\\' then '/' else s[i])
  }

  /** path.Ext, scanning down from position `i`. */
  function ExtBelow(s: string, i: nat): string
    requires i <= |s|
  {
    if i == 0 || s[i - 1] == '/' then ""
    else if s[i - 1] == '.' then s[i - 1..]
    else ExtBelow(s, i - 1)
  }

  function ExtOf(filename: string): string {
    var s := Slashed(filename);
    Lower(ExtBelow(s, |s|))
  }

  function ExtScore(ext: string): real {
    if ext == ".flac" then 1.0 else if ext == ".mp3" then 0.5 else 0.2
  }

  lemma {:induction false} ExtIsSuffix(s: string, i: nat)
    requires i <= |s|
    ensures HasSuffix(s, ExtBelow(s, i))
  {
    if i > 0 && s[i - 1] != '/' && s[i - 1] != '.' {
      ExtIsSuffix(s, i - 1);
    }
  }

  /** A dot followed by ordinary letters to the end is the extension. */
  lemma {:induction false} ExtFound(s: string, dot: nat, i: nat)
    requires dot < i <= |s| && s[dot] == '.'
    requires forall k | dot < k < i :: s[k] != '.' && s[k] != '/'
    ensures ExtBelow(s, i) == s[dot..]
  {
    if i > dot + 1 {
      ExtFound(s, dot, i - 1);
    }
  }

  lemma {:induction false} ExtBelowSlash(s: string, k: nat, i: nat)
    requires k < i <= |s| && s[k] == '/'
    ensures ExtBelow(s, i) == ExtBelow(s[k + 1..], i - k - 1)
  {
    if i > k + 1 {
      assert s[i - 1..] == s[k + 1..][i - k - 2..];
      ExtBelowSlash(s, k, i - 1);
    }
  }

  /** What lies before a separator of either kind has no say in the extension. */
  lemma ExtIsOfName(filename: string, k: nat)
    requires k < |filename| && filename[k] in "/\\"
    ensures ExtOf(filename) == ExtOf(filename[k + 1..])
  {
    var s := Slashed(filename);
    ExtBelowSlash(s, k, |s|);
    assert s[k + 1..] == Slashed(filename[k + 1..]);
  }

  lemma ExtIsThere(filename: string)
    requires '/' !in ExtOf(filename)
    ensures HasSuffix(Lower(filename), ExtOf(filename))
  {
    var s, ext := Slashed(filename), ExtOf(filename);
    ExtIsSuffix(s, |s|);
    var dot := |s| - |ext|;
    var tail := Lower(filename)[dot..];
    forall k | 0 <= k < |ext| ensures tail[k] == ext[k] {
      assert ext[k] == LowerChar(s[dot + k]) && tail[k] == LowerChar(filename[dot + k]);
      assert LowerChar('/') == '/' != ext[k];
    }
    assert tail == ext;
  }

  lemma SuffixIsExt(filename: string, ext: string)
    requires |ext| > 1 && ext[0] == '.' && forall k | 0 < k < |ext| :: 'a' <= ext[k] <= 'z' || '0' <= ext[k] <= '9'
    ensures HasSuffix(Lower(filename), ext) <==> ExtOf(filename) == ext
  {
    var s := Slashed(filename);
    var dot := |s| - |ext|;
    ExtIsSuffix(s, |s|);
    if HasSuffix(Lower(filename), ext) {
      forall k | 0 <= k < |ext| ensures LowerChar(filename[dot + k]) == ext[k] {
        assert Lower(filename)[dot..][k] == Lower(filename)[dot + k];
      }
      assert LowerChar(filename[dot + 0]) == '.';
      forall k | dot < k < |s| ensures s[k] != '.' && s[k] != '/' {
        assert LowerChar(filename[dot + (k - dot)]) == ext[k - dot];
      }
      ExtFound(s, dot, |s|);
      forall k | 0 <= k < |ext| ensures Lower(s[dot..])[k] == ext[k] {
        assert LowerChar(filename[dot + k]) == ext[k];
      }
      assert Lower(s[dot..]) == ext;
    }
    if ExtOf(filename) == ext {
      assert forall k | 0 <= k < |ext| :: ext[k] != '/';
      ExtIsThere(filename);
    }
  }

  /** A file's score is its extension's, so a bucket has one score. */
  lemma ScoreIsExtScore(filename: string)
    ensures FormatScore(filename) == ExtScore(ExtOf(filename))
  {
    SuffixIsExt(filename, ".flac");
    SuffixIsExt(filename, ".mp3");
  }

  // ---------------------------------------------------------------- choosing a bucket

  function Bucket(files: seq<SearchResult>, ext: string): seq<SearchResult> {
    if files == [] then []
    else
      var last := files[|files| - 1];
      Bucket(files[..|files| - 1], ext) + if ExtOf(last.filename) == ext then [last] else []
  }

  function Exts(files: seq<SearchResult>): set<string> {
    set f | f in files :: ExtOf(f.filename)
  }

  lemma {:induction false} BucketIs(files: seq<SearchResult>, ext: string)
    ensures forall f :: f in Bucket(files, ext) <==> f in files && ExtOf(f.filename) == ext
    ensures ext in Exts(files) <==> Bucket(files, ext) != []
  {
    hide ExtOf;
    if files != [] {
      var init, last := files[..|files| - 1], files[|files| - 1];
      assert files == init + [last];
      BucketIs(init, ext);
    }
    if Bucket(files, ext) != [] {
      assert Bucket(files, ext)[0] in files;
    }
  }

  /** Bucket `a` is preferred to `b`: better format, then more files, then the smaller name. */
  predicate Ahead(files: seq<SearchResult>, a: string, b: string) {
    var (n, m) := (|Bucket(files, a)|, |Bucket(files, b)|);
    ExtScore(a) > ExtScore(b) || (ExtScore(a) == ExtScore(b) && (n > m || (n == m && StrLess(a, b))))
  }

  lemma AheadIsTotal(files: seq<SearchResult>, a: string, b: string, c: string)
    ensures a == b || Ahead(files, a, b) || Ahead(files, b, a)
    ensures !(Ahead(files, a, b) && Ahead(files, b, a))
    ensures !Ahead(files, a, a)
    ensures Ahead(files, a, b) && Ahead(files, b, c) ==> Ahead(files, a, c)
  {
    StrLessTotal(a, b);
    StrLessTotal(a, a);
    if StrLess(a, b) && StrLess(b, c) {
      StrLessTransitive(a, b, c);
    }
  }

  /** One turn of the loop over the buckets; "" doubles as "none yet". */
  function Prefer(files: seq<SearchResult>, best: string, ext: string): string {
    if best == "" || Ahead(files, ext, best) then ext else best
  }

  function Pick(files: seq<SearchResult>, order: seq<string>): string {
    if order == [] then "" else Prefer(files, Pick(files, order[..|order| - 1]), order[|order| - 1])
  }

  /** An order in which a map with these keys may be ranged over. */
  ghost predicate Enumerates(order: seq<string>, keys: set<string>) {
    && (forall e :: e in order <==> e in keys)
    && (forall i, j | 0 <= i < j < |order| :: order[i] != order[j])
  }

  ghost predicate Foremost(files: seq<SearchResult>, keys: set<string>, best: string) {
    best in keys && forall e | e in keys && e != best :: Ahead(files, best, e)
  }

  lemma {:induction false} ForemostExists(files: seq<SearchResult>, keys: set<string>) returns (best: string)
    requires keys != {}
    ensures Foremost(files, keys, best)
    decreases |keys|
  {
    hide Ahead;
    var e := ElementOf(keys);
    best := e;
    assert keys == (keys - {e}) + {e};
    if keys - {e} != {} {
      best := ForemostExists(files, keys - {e});
      AheadIsTotal(files, e, best, best);
      if Ahead(files, e, best) {
        forall x | x in keys && x != e ensures Ahead(files, e, x) {
          AheadIsTotal(files, e, best, x);
        }
        best := e;
      }
    }
  }

  /** Files without an extension outrank every bucket of files with one. */
  ghost predicate Blind(files: seq<SearchResult>) {
    "" in Exts(files) && (exists e :: e in Exts(files) && e != "")
    && forall e | e in Exts(files) && e != "" :: Ahead(files, "", e)
  }

  /** Otherwise the pick is the foremost bucket, in whatever order the map is ranged over. */
  lemma PickIsForemost(files: seq<SearchResult>, order: seq<string>, best: string)
    requires Enumerates(order, Exts(files)) && Foremost(files, Exts(files), best) && !Blind(files)
    ensures Pick(files, order) == best
  {
    if best == "" {
      assert |order| > 1 ==> order[0] != order[1];
      assert best in order;
      assert forall i | 0 <= i < |order| :: order[i] in order;
      assert order == [""] && order[..0] == [];
    } else {
      PickOnceSeen(files, order, best);
    }
  }

  lemma {:induction false} PickOnceSeen(files: seq<SearchResult>, order: seq<string>, best: string)
    requires forall i, j | 0 <= i < j < |order| :: order[i] != order[j]
    requires best != "" && forall e | e in order && e != best :: Ahead(files, best, e)
    ensures best in order ==> Pick(files, order) == best
    ensures Pick(files, order) == "" || Pick(files, order) in order
  {
    hide Ahead;
    if order != [] {
      var init, last := order[..|order| - 1], order[|order| - 1];
      assert order == init + [last];
      PickOnceSeen(files, init, best);
      AheadIsTotal(files, last, best, best);
    }
  }

  lemma {:induction false} EnumerationExists(keys: set<string>) returns (order: seq<string>)
    ensures Enumerates(order, keys)
    decreases |keys|
  {
    order := [];
    if keys != {} {
      var e := ElementOf(keys);
      order := EnumerationExists(keys - {e});
      order := order + [e];
    }
  }

  lemma {:induction false} NamedStaysNamed(files: seq<SearchResult>, order: seq<string>)
    requires |order| >= 2 && order[0] == "" && forall i | 0 < i < |order| :: order[i] != ""
    ensures Pick(files, order) != ""
  {
    var init := order[..|order| - 1];
    if |order| == 2 {
      assert init == [""] && init[..0] == [];
    } else {
      NamedStaysNamed(files, init);
    }
  }

  /** In the blind case the pick does depend on the order. */
  lemma BlindIsAmbiguous(files: seq<SearchResult>) returns (one: seq<string>, other: seq<string>)
    requires Blind(files)
    ensures Enumerates(one, Exts(files)) && Enumerates(other, Exts(files))
    ensures Pick(files, one) == "" && Pick(files, other) != ""
  {
    hide Ahead, ExtOf;
    var named := Exts(files) - {""};
    var e :| e in Exts(files) && e != "";
    assert e in named;
    var rest := EnumerationExists(named);
    one, other := rest + [""], [""] + rest;
    var best := ForemostExists(files, named);
    PickOnceSeen(files, rest, best);
    assert one[..|one| - 1] == rest;
    assert best in rest;
    NamedStaysNamed(files, other);
  }

  /** Two files of one folder, one of them without an extension. */
  function BareAndNamed(bitRate: int): seq<SearchResult> {
    [SearchResult("u", "a", 1, bitRate, true, 0, 0, 0, 0, 0, false),
     SearchResult("u", "b.o", 1, bitRate, true, 0, 0, 0, 0, 0, false)]
  }

  lemma NoExt(s: string)
    requires |s| == 1 && s[0] != '.'
    ensures ExtBelow(s, 1) == ""
  {
  }

  lemma BareExts()
    ensures ExtOf("a") == "" && ExtOf("b.o") == ".o"
  {
    hide ExtBelow;
    assert Slashed("b.o") == "b.o";
    ExtFound("b.o", 1, 3);
    assert "b.o"[1..] == ".o" && Lower(".o") == ".o";
    assert Slashed("a") == "a";
    NoExt("a");
    assert Lower("") == "";
  }

  /** A folder in the blind case. */
  lemma SomeFolderIsBlind(bitRate: int)
    ensures Blind(BareAndNamed(bitRate))
  {
    hide ExtOf, Bucket, ExtScore, StrLess;
    BareExts();
    var files := BareAndNamed(bitRate);
    assert files[0] in files && files[1] in files;
    assert "" in Exts(files) && ".o" in Exts(files);
    assert ".o" != "" by { assert |".o"| == 2; }
    forall e | e in Exts(files) && e != "" ensures Ahead(files, "", e) {
      assert e == ".o";
      BareIsAhead(bitRate);
    }
  }

  lemma BareIsAhead(bitRate: int)
    ensures Ahead(BareAndNamed(bitRate), "", ".o")
  {
    hide ExtOf;
    BareExts();
    var files := BareAndNamed(bitRate);
    assert files[..1] == [files[0]] && [files[0]][..0] == [];
    assert Bucket(files[..1], "") == [files[0]] && Bucket(files[..1], ".o") == [];
    assert Bucket(files, "") == [files[0]] && Bucket(files, ".o") == [files[1]];
    assert StrLess("", ".o") && ExtScore("") == ExtScore(".o") == 0.2;
  }

  // ---------------------------------------------------------------- one file per track

  /** The first file of each track, in order. */
  function Firsts(files: seq<SearchResult>, trackKey: string -> string): seq<SearchResult> {
    if files == [] then []
    else
      var init, last := files[..|files| - 1], files[|files| - 1];
      Firsts(init, trackKey) + if HasTrack(init, trackKey, trackKey(last.filename)) then [] else [last]
  }

  predicate HasTrack(files: seq<SearchResult>, trackKey: string -> string, k: string) {
    exists i :: 0 <= i < |files| && trackKey(files[i].filename) == k
  }

  lemma HasTrackSnoc(init: seq<SearchResult>, last: SearchResult, trackKey: string -> string, k: string)
    ensures HasTrack(init + [last], trackKey, k) <==> HasTrack(init, trackKey, k) || trackKey(last.filename) == k
  {
    var all := init + [last];
    if HasTrack(init, trackKey, k) {
      var i :| 0 <= i < |init| && trackKey(init[i].filename) == k;
      assert trackKey(all[i].filename) == k;
    } else if trackKey(last.filename) == k {
      assert all[|init|] == last;
    }
  }

  /** Every track of the bucket is kept once, as one of the bucket's own files. */
  lemma {:induction false} FirstsIs(files: seq<SearchResult>, trackKey: string -> string)
    ensures var out := Firsts(files, trackKey);
            && (files != [] ==> out != [])
            && (forall f | f in out :: f in files)
            && (forall i, j | 0 <= i < j < |out| :: trackKey(out[i].filename) != trackKey(out[j].filename))
            && (forall k :: HasTrack(out, trackKey, k) <==> HasTrack(files, trackKey, k))
  {
    if files != [] {
      var init, last := files[..|files| - 1], files[|files| - 1];
      assert files == init + [last];
      FirstsIs(init, trackKey);
      var out := Firsts(init, trackKey);
      forall i | 0 <= i < |out| ensures HasTrack(init, trackKey, trackKey(out[i].filename)) {
        assert HasTrack(out, trackKey, trackKey(out[i].filename));
      }
      assert Firsts(files, trackKey) ==
        if HasTrack(init, trackKey, trackKey(last.filename)) then out else out + [last];
      forall k ensures HasTrack(Firsts(files, trackKey), trackKey, k) <==> HasTrack(files, trackKey, k) {
        HasTrackSnoc(init, last, trackKey, k);
        HasTrackSnoc(out, last, trackKey, k);
      }
    }
  }

  // ---------------------------------------------------------------- the loops

  ghost predicate Bucketed(byExt: map<string, seq<SearchResult>>, files: seq<SearchResult>) {
    byExt.Keys == Exts(files) && forall e | e in byExt :: byExt[e] == Bucket(files, e)
  }

  lemma BucketSnoc(files: seq<SearchResult>, n: nat, byExt: map<string, seq<SearchResult>>)
    requires n < |files| && Bucketed(byExt, files[..n])
    ensures var ext := ExtOf(files[n].filename);
            Bucketed(byExt[ext := (if ext in byExt then byExt[ext] else []) + [files[n]]], files[..n + 1])
  {
    hide ExtOf;
    var ext := ExtOf(files[n].filename);
    assert files[..n + 1][..n] == files[..n];
    assert files[..n + 1] == files[..n] + [files[n]];
    BucketIs(files[..n], ext);
    assert files[n] in files[..n + 1];
    forall e ensures e in Exts(files[..n + 1]) <==> e in Exts(files[..n]) || e == ext {
      if e in Exts(files[..n]) {
        var f :| f in files[..n] && ExtOf(f.filename) == e;
        assert f in files[..n + 1];
      }
    }
  }

  method BucketAll(files: seq<SearchResult>) returns (byExt: map<string, seq<SearchResult>>)
    ensures Bucketed(byExt, files)
  {
    byExt := map[];
    for n := 0 to |files|
      invariant Bucketed(byExt, files[..n])
    {
      hide Bucketed, ExtOf;
      BucketSnoc(files, n, byExt);
      var ext := ExtOf(files[n].filename);
      byExt := byExt[ext := (if ext in byExt then byExt[ext] else []) + [files[n]]];
    }
    assert files[..|files|] == files;
  }

  method PreferBucket(files: seq<SearchResult>, byExt: map<string, seq<SearchResult>>, bestExt: string, ext: string)
    returns (best: string)
    requires Bucketed(byExt, files) && ext in byExt && (bestExt == "" || bestExt in byExt)
    ensures best == Prefer(files, bestExt, ext) && (best == ext || best == bestExt)
  {
    hide ExtOf, FormatScore, ExtScore;
    if bestExt == "" {
      return ext;
    }
    best := bestExt;
    HeadScore(files, ext);
    HeadScore(files, bestExt);
    var score, bestScore := FormatScore(byExt[ext][0].filename), FormatScore(byExt[bestExt][0].filename);
    if score > bestScore {
      best := ext;
    } else if score == bestScore && |byExt[ext]| > |byExt[bestExt]| {
      best := ext;
    } else if score == bestScore && |byExt[ext]| == |byExt[bestExt]| && StrLess(ext, bestExt) {
      best := ext;
    }
  }

  lemma EnumerateNext(order: seq<string>, keys: set<string>, rest: set<string>, e: string)
    requires Enumerates(order, keys - rest) && rest <= keys && e in rest
    ensures Enumerates(order + [e], keys - (rest - {e}))
  {
    forall x ensures x in order + [e] <==> x in keys - (rest - {e}) {
      assert x in order <==> x in keys - rest;
    }
  }

  lemma PickNext(files: seq<SearchResult>, order: seq<string>, e: string)
    ensures Pick(files, order + [e]) == Prefer(files, Pick(files, order), e)
  {
    assert (order + [e])[..|order|] == order;
  }

  /** The extension picked, with the order the map happened to be ranged over. */
  method PickExt(files: seq<SearchResult>, byExt: map<string, seq<SearchResult>>)
    returns (bestExt: string, ghost order: seq<string>)
    requires Bucketed(byExt, files)
    ensures Enumerates(order, Exts(files)) && bestExt == Pick(files, order)
  {
    var keys := byExt.Keys;
    assert keys == Exts(files);
    assert Enumerates([], {}) && keys - keys == {};
    hide ExtOf, Exts, Prefer, Bucketed, Enumerates, Pick;
    bestExt, order := "", [];
    var rest := keys;
    while rest != {}
      invariant rest <= keys
      invariant Enumerates(order, keys - rest)
      invariant bestExt == Pick(files, order)
      invariant bestExt == "" || bestExt in keys
      decreases |rest|
    {
      var ext := AnyOf(rest);
      EnumerateNext(order, keys, rest, ext);
      PickNext(files, order, ext);
      rest := rest - {ext};
      order := order + [ext];
      bestExt := PreferBucket(files, byExt, bestExt, ext);
    }
    assert keys - rest == keys;
  }

  lemma HeadScore(files: seq<SearchResult>, ext: string)
    requires ext in Exts(files)
    ensures Bucket(files, ext) != [] && FormatScore(Bucket(files, ext)[0].filename) == ExtScore(ext)
  {
    hide ExtOf, FormatScore, ExtScore;
    BucketIs(files, ext);
    var f := Bucket(files, ext)[0];
    assert f in Bucket(files, ext);
    ScoreIsExtScore(f.filename);
  }

  method FirstPerTrack(bucket: seq<SearchResult>, trackKey: string -> string) returns (out: seq<SearchResult>)
    ensures out == Firsts(bucket, trackKey)
  {
    var best: map<string, SearchResult> := map[];
    var keys: seq<string> := [];
    for n := 0 to |bucket|
      invariant KeysOf(bucket[..n], trackKey, keys, best)
    {
      hide KeysOf, Firsts;
      assert bucket[..n + 1] == bucket[..n] + [bucket[n]];
      var k := trackKey(bucket[n].filename);
      KeysSnoc(bucket[..n], bucket[n], trackKey, keys, best);
      if k !in best {
        keys := keys + [k];
        best := best[k := bucket[n]];
      }
    }
    assert bucket[..|bucket|] == bucket;
    out := [];
    for n := 0 to |keys|
      invariant out == Firsts(bucket, trackKey)[..n]
    {
      out := out + [best[keys[n]]];
    }
  }

  method DedupeTracks(files: seq<SearchResult>, trackKey: string -> string)
    returns (out: seq<SearchResult>, ghost order: seq<string>)
    ensures Enumerates(order, Exts(files))
    ensures out == Firsts(Bucket(files, Pick(files, order)), trackKey)
  {
    hide ExtOf, Enumerates, Firsts;
    var byExt := BucketAll(files);
    var bestExt;
    bestExt, order := PickExt(files, byExt);
    BucketIs(files, bestExt);
    out := FirstPerTrack(if bestExt in byExt then byExt[bestExt] else [], trackKey);
  }

  /** `keys` lists the tracks met in order, `best` their first files. */
  ghost predicate KeysOf(files: seq<SearchResult>, trackKey: string -> string, keys: seq<string>,
                         best: map<string, SearchResult>) {
    var out := Firsts(files, trackKey);
    && |keys| == |out|
    && (forall i | 0 <= i < |keys| ::
          keys[i] == trackKey(out[i].filename) && keys[i] in best && best[keys[i]] == out[i])
    && (forall k :: k in best <==> HasTrack(files, trackKey, k))
  }

  lemma KeysSnoc(files: seq<SearchResult>, f: SearchResult, trackKey: string -> string, keys: seq<string>,
                 best: map<string, SearchResult>)
    requires KeysOf(files, trackKey, keys, best)
    ensures var k := trackKey(f.filename);
            KeysOf(files + [f], trackKey, if k in best then keys else keys + [k],
                   if k in best then best else best[k := f])
  {
    hide HasTrack;
    var k := trackKey(f.filename);
    assert (files + [f])[..|files|] == files;
    assert Firsts(files + [f], trackKey) ==
      if k in best then Firsts(files, trackKey) else Firsts(files, trackKey) + [f];
    forall j ensures HasTrack(files + [f], trackKey, j) <==> HasTrack(files, trackKey, j) || j == k {
      HasTrackSnoc(files, f, trackKey, j);
    }
  }
}
