/**
 Deduplicating one album folder: files are grouped into same-track sets by number, or failing that by
 title, and each group keeps one winner. Normalized titles and albums contain no '/', so the keys
 joined with it are modelled as tuples.
*/
module TrackDedup {
  import opened Basics

  datatype File = File(
    path: string, size: int, albumKey: string, disc: int, track: int, titleKey: string, lossless: bool)

  type NumKey = (string, int, int)

  type TitleKey = (string, string)

  // ---------------------------------------------------------------- the winner

  /** `f` is kept rather than `best`: lossless beats lossy, then the larger, then the smaller path. */
  predicate Better(f: File, best: File) {
    if f.lossless != best.lossless then f.lossless
    else if f.size != best.size then f.size > best.size
    else StrLess(f.path, best.path)
  }

  lemma BetterIsStrict(a: File, b: File, c: File)
    ensures !Better(a, a)
    ensures Better(a, b) && Better(b, c) ==> Better(a, c)
    ensures a.path != b.path ==> Better(a, b) || Better(b, a)
    ensures Better(a, b) ==> !Better(b, a)
  {
    StrLessTotal(a.path, b.path);
    StrLessTotal(a.path, a.path);
    if StrLess(a.path, b.path) && StrLess(b.path, c.path) {
      StrLessTransitive(a.path, b.path, c.path);
    }
    if StrLess(b.path, a.path) && StrLess(a.path, c.path) {
      StrLessTransitive(b.path, a.path, c.path);
    }
  }

  predicate Unbeaten(g: seq<File>, f: File) {
    f in g && forall h | h in g :: !Better(h, f)
  }

  method Winner(g: seq<File>) returns (best: File)
    requires g != []
    ensures Unbeaten(g, best)
  {
    best := g[0];
    BetterIsStrict(best, best, best);
    for i := 1 to |g|
      invariant best in g
      invariant forall j | 0 <= j < i :: !Better(g[j], best)
    {
      var f := g[i];
      BetterIsStrict(f, best, best);
      forall j | 0 <= j < i && Better(f, best) ensures !Better(g[j], f) {
        BetterIsStrict(g[j], f, best);
      }
      if f.lossless != best.lossless {
        if f.lossless {
          best := f;
        }
      } else if f.size != best.size {
        if f.size > best.size {
          best := f;
        }
      } else if StrLess(f.path, best.path) {
        best := f;
      }
      assert !Better(f, f) by { BetterIsStrict(f, f, f); }
    }
  }

  // ---------------------------------------------------------------- the keys

  predicate ManyAlbums(files: seq<File>) {
    exists f, g :: f in files && g in files && f.albumKey != "" && g.albumKey != "" && f.albumKey != g.albumKey
  }

  method MultiAlbum(files: seq<File>) returns (many: bool)
    ensures many <==> ManyAlbums(files)
  {
    var first := "";
    for i := 0 to |files|
      invariant first != "" ==> exists f :: f in files && f.albumKey == first
      invariant forall j | 0 <= j < i :: files[j].albumKey == "" || files[j].albumKey == first
    {
      var f := files[i];
      if f.albumKey == "" {
      } else if first == "" {
        first := f.albumKey;
      } else if f.albumKey != first {
        return true;
      }
    }
    return false;
  }

  /** A file's album as far as keys are concerned. */
  function AlbumOf(scoped: bool, f: File): string {
    if scoped then f.albumKey else ""
  }

  predicate Numbered(scoped: bool, f: File) {
    f.track > 0 && !(scoped && f.albumKey == "")
  }

  function NumOf(scoped: bool, f: File): NumKey {
    (AlbumOf(scoped, f), f.disc, f.track)
  }

  function TitleOf(scoped: bool, f: File): TitleKey {
    (AlbumOf(scoped, f), f.titleKey)
  }

  /** The numbered group a title belongs to: that of the first numbered file bearing it. */
  function Home(files: seq<File>, scoped: bool, t: TitleKey): Option<NumKey> {
    if files == [] then None
    else
      var before, f := Home(files[..|files| - 1], scoped, t), files[|files| - 1];
      if before.None? && Numbered(scoped, f) && f.titleKey != "" && TitleOf(scoped, f) == t
      then Some(NumOf(scoped, f)) else before
  }

  datatype Key = ByNum(num: NumKey) | ByTitle(title: TitleKey) | Unidentified

  function KeyOfTitle(files: seq<File>, scoped: bool, t: TitleKey): Key {
    match Home(files, scoped, t)
    case Some(n) => ByNum(n)
    case None => ByTitle(t)
  }

  function KeyIn(files: seq<File>, scoped: bool, f: File): Key {
    if Numbered(scoped, f) then ByNum(NumOf(scoped, f))
    else if f.titleKey == "" then Unidentified
    else KeyOfTitle(files, scoped, TitleOf(scoped, f))
  }

  /** Which track a file is taken to be a copy of, within its folder. */
  function KeyOf(files: seq<File>, f: File): Key {
    KeyIn(files, ManyAlbums(files), f)
  }

  ghost predicate Best(files: seq<File>, w: File) {
    w in files && forall g | g in files && KeyOf(files, g) == KeyOf(files, w) :: !Better(g, w)
  }

  ghost predicate Lost(files: seq<File>, f: File) {
    && KeyOf(files, f) != Unidentified
    && exists w :: Best(files, w) && KeyOf(files, w) == KeyOf(files, f) && w.path != f.path
  }

  ghost predicate DistinctPaths(files: seq<File>) {
    forall i, j | 0 <= i < j < |files| :: files[i].path != files[j].path
  }

  // ---------------------------------------------------------------- the grouping loops

  /** Groups built so far: one per key, together holding exactly the files at the positions `done`. */
  ghost predicate Grouped(files: seq<File>, scoped: bool, groups: seq<seq<File>>, keys: seq<Key>, done: set<int>) {
    && |groups| == |keys|
    && (forall g, h | 0 <= g < h < |keys| :: keys[g] != keys[h])
    && Unidentified !in keys
    && (forall g, f | 0 <= g < |groups| && f in groups[g] :: KeyIn(files, scoped, f) == keys[g] && At(files, done, f))
    && (forall i | i in done && 0 <= i < |files| :: Somewhere(groups, files[i]))
    && (DistinctPaths(files) ==> forall g | 0 <= g < |groups| :: DistinctPaths(groups[g]))
  }

  ghost predicate At(files: seq<File>, done: set<int>, f: File) {
    exists i :: i in done && 0 <= i < |files| && files[i] == f
  }

  ghost predicate Somewhere(groups: seq<seq<File>>, f: File) {
    exists g :: 0 <= g < |groups| && f in groups[g]
  }

  lemma OpenGroup(files: seq<File>, scoped: bool, groups: seq<seq<File>>, keys: seq<Key>, done: set<int>, k: Key)
    requires Grouped(files, scoped, groups, keys, done)
    requires k != Unidentified && k !in keys
    ensures Grouped(files, scoped, groups + [[]], keys + [k], done)
  {
    var groups' := groups + [[]];
    forall i | i in done && 0 <= i < |files| ensures Somewhere(groups', files[i]) {
      assert Somewhere(groups, files[i]);
      var g :| 0 <= g < |groups| && files[i] in groups[g];
      assert files[i] in groups'[g];
    }
  }

  lemma JoinGroup(files: seq<File>, scoped: bool, groups: seq<seq<File>>, keys: seq<Key>, done: set<int>, i: nat,
                  g: nat)
    requires Grouped(files, scoped, groups, keys, done)
    requires i < |files| && i !in done && g < |groups| && KeyIn(files, scoped, files[i]) == keys[g]
    ensures Grouped(files, scoped, groups[g := groups[g] + [files[i]]], keys, done + {i})
  {
    hide KeyIn;
    var groups', done' := groups[g := groups[g] + [files[i]]], done + {i};
    forall h, f | 0 <= h < |groups'| && f in groups'[h]
      ensures KeyIn(files, scoped, f) == keys[h] && At(files, done', f)
    {
      if f in groups[h] {
        assert At(files, done, f);
        var j :| j in done && 0 <= j < |files| && files[j] == f;
        assert j in done';
      } else {
        assert h == g && f == files[i] && i in done';
      }
    }
    forall j | j in done' && 0 <= j < |files| ensures Somewhere(groups', files[j]) {
      if j == i {
        assert files[i] in groups'[g];
      } else {
        assert Somewhere(groups, files[j]);
        var h :| 0 <= h < |groups| && files[j] in groups[h];
        assert files[j] in groups'[h];
      }
    }
    if DistinctPaths(files) {
      forall x | 0 <= x < |groups[g]| ensures groups[g][x].path != files[i].path {
        assert groups[g][x] in groups[g] && At(files, done, groups[g][x]);
        var j :| j in done && 0 <= j < |files| && files[j] == groups[g][x];
        assert j < i || i < j;
      }
      assert DistinctPaths(groups[g]);
    }
  }

  function NumberedAt(files: seq<File>, scoped: bool, n: int): set<int> {
    set j | 0 <= j < |files| && j < n && Numbered(scoped, files[j])
  }

  function TitledAt(files: seq<File>, scoped: bool, n: int): set<int> {
    set j | 0 <= j < |files| && j < n && !Numbered(scoped, files[j]) && files[j].titleKey != ""
  }

  /** `byNum` finds the numbered groups, and they are the only ones yet. */
  ghost predicate NumIndex(byNum: map<NumKey, nat>, keys: seq<Key>) {
    && (forall n | n in byNum :: byNum[n] < |keys| && keys[byNum[n]] == ByNum(n))
    && (forall g | 0 <= g < |keys| :: keys[g].ByNum? && keys[g].num in byNum)
  }

  /** `byTitle` holds the homes the first `n` files give. */
  ghost predicate HomeIndex(byTitle: map<TitleKey, nat>, keys: seq<Key>, files: seq<File>, scoped: bool) {
    forall t :: (t in byTitle <==> Home(files, scoped, t).Some?)
                && (t in byTitle ==> byTitle[t] < |keys| && keys[byTitle[t]] == ByNum(Home(files, scoped, t).value))
  }

  lemma TitleSeen(byTitle: map<TitleKey, nat>, keys: seq<Key>, files: seq<File>, scoped: bool, i: nat, idx: nat)
    requires i < |files| && HomeIndex(byTitle, keys, files[..i], scoped) && idx < |keys|
    requires Numbered(scoped, files[i]) ==> keys[idx] == ByNum(NumOf(scoped, files[i]))
    ensures HomeIndex(if Numbered(scoped, files[i]) && files[i].titleKey != "" && TitleOf(scoped, files[i]) !in byTitle
                      then byTitle[TitleOf(scoped, files[i]) := idx] else byTitle, keys, files[..i + 1], scoped)
  {
    assert files[..i + 1][..i] == files[..i];
  }

  lemma TitleSkipped(byTitle: map<TitleKey, nat>, keys: seq<Key>, files: seq<File>, scoped: bool, i: nat)
    requires i < |files| && HomeIndex(byTitle, keys, files[..i], scoped) && !Numbered(scoped, files[i])
    ensures HomeIndex(byTitle, keys, files[..i + 1], scoped)
  {
    assert files[..i + 1][..i] == files[..i];
  }

  /** The group for number `k`, opened if there is none. */
  method GroupFor(files: seq<File>, scoped: bool, groups: seq<seq<File>>, ghost keys: seq<Key>, ghost done: set<int>,
                  byNum: map<NumKey, nat>, k: NumKey)
    returns (groups': seq<seq<File>>, ghost keys': seq<Key>, byNum': map<NumKey, nat>, idx: nat)
    requires Grouped(files, scoped, groups, keys, done) && NumIndex(byNum, keys)
    ensures Grouped(files, scoped, groups', keys', done) && NumIndex(byNum', keys')
    ensures keys <= keys' && idx < |keys'| == |groups'| && keys'[idx] == ByNum(k)
  {
    groups', keys', byNum' := groups, keys, byNum;
    if k !in byNum {
      OpenGroup(files, scoped, groups, keys, done, ByNum(k));
      groups', keys' := groups + [[]], keys + [ByNum(k)];
      byNum' := byNum[k := |groups'| - 1];
    }
    idx := byNum'[k];
  }

  method AddNumbered(files: seq<File>, scoped: bool, i: nat, groups: seq<seq<File>>, ghost keys: seq<Key>,
                     ghost done: set<int>, byNum: map<NumKey, nat>, byTitle: map<TitleKey, nat>)
    returns (groups': seq<seq<File>>, ghost keys': seq<Key>, byNum': map<NumKey, nat>, byTitle': map<TitleKey, nat>)
    requires i < |files| && i !in done && Numbered(scoped, files[i])
    requires Grouped(files, scoped, groups, keys, done) && NumIndex(byNum, keys)
    requires HomeIndex(byTitle, keys, files[..i], scoped)
    ensures Grouped(files, scoped, groups', keys', done + {i}) && NumIndex(byNum', keys')
    ensures HomeIndex(byTitle', keys', files[..i + 1], scoped)
  {
    hide Grouped, HomeIndex, NumIndex;
    var f, idx := files[i], 0;
    groups', keys', byNum', idx := GroupFor(files, scoped, groups, keys, done, byNum, NumOf(scoped, f));
    HomesStay(byTitle, keys, keys', files[..i], scoped);
    JoinGroup(files, scoped, groups', keys', done, i, idx);
    groups' := groups'[idx := groups'[idx] + [f]];
    TitleSeen(byTitle, keys', files, scoped, i, idx);
    byTitle' := byTitle;
    if f.titleKey != "" && TitleOf(scoped, f) !in byTitle {
      byTitle' := byTitle[TitleOf(scoped, f) := idx];
    }
  }

  method GroupNumbered(files: seq<File>, scoped: bool)
    returns (groups: seq<seq<File>>, ghost keys: seq<Key>, byTitle: map<TitleKey, nat>, numbered: seq<bool>)
    ensures Grouped(files, scoped, groups, keys, NumberedAt(files, scoped, |files|))
    ensures forall g | 0 <= g < |keys| :: keys[g].ByNum?
    ensures HomeIndex(byTitle, keys, files, scoped)
    ensures |numbered| == |files| && forall i | 0 <= i < |files| :: numbered[i] == Numbered(scoped, files[i])
  {
    groups, keys, byTitle, numbered := [], [], map[], [];
    var byNum: map<NumKey, nat> := map[];
    for i := 0 to |files|
      invariant Grouped(files, scoped, groups, keys, NumberedAt(files, scoped, i))
      invariant NumIndex(byNum, keys)
      invariant HomeIndex(byTitle, keys, files[..i], scoped)
      invariant |numbered| == i && forall j | 0 <= j < i :: numbered[j] == Numbered(scoped, files[j])
    {
      hide Grouped, HomeIndex, NumIndex;
      var f := files[i];
      if f.track <= 0 || (scoped && f.albumKey == "") {
        assert NumberedAt(files, scoped, i + 1) == NumberedAt(files, scoped, i);
        TitleSkipped(byTitle, keys, files, scoped, i);
        numbered := numbered + [false];
        continue;
      }
      numbered := numbered + [true];
      assert NumberedAt(files, scoped, i + 1) == NumberedAt(files, scoped, i) + {i};
      groups, keys, byNum, byTitle :=
        AddNumbered(files, scoped, i, groups, keys, NumberedAt(files, scoped, i), byNum, byTitle);
    }
    assert files[..|files|] == files;
  }

  lemma HomesStay(byTitle: map<TitleKey, nat>, keys: seq<Key>, keys': seq<Key>, files: seq<File>, scoped: bool)
    requires HomeIndex(byTitle, keys, files, scoped) && keys <= keys'
    ensures HomeIndex(byTitle, keys', files, scoped)
  {
  }

  /** `byTitle` finds the group of every title met, and the unnumbered groups are all in it. */
  ghost predicate TitleIndex(byTitle: map<TitleKey, nat>, keys: seq<Key>, files: seq<File>, scoped: bool) {
    && (forall t | t in byTitle :: byTitle[t] < |keys| && keys[byTitle[t]] == KeyOfTitle(files, scoped, t))
    && (forall t :: Home(files, scoped, t).Some? ==> t in byTitle)
    && (forall g | 0 <= g < |keys| && keys[g].ByTitle? :: keys[g].title in byTitle)
  }

  method GroupTitled(files: seq<File>, scoped: bool, numbered: seq<bool>, groups0: seq<seq<File>>,
                     ghost keys0: seq<Key>,
                     byTitle0: map<TitleKey, nat>)
    returns (groups: seq<seq<File>>, ghost keys: seq<Key>)
    requires Grouped(files, scoped, groups0, keys0, NumberedAt(files, scoped, |files|))
    requires forall g | 0 <= g < |keys0| :: keys0[g].ByNum?
    requires HomeIndex(byTitle0, keys0, files, scoped)
    requires |numbered| == |files| && forall i | 0 <= i < |files| :: numbered[i] == Numbered(scoped, files[i])
    ensures Grouped(files, scoped, groups, keys, NumberedAt(files, scoped, |files|) + TitledAt(files, scoped, |files|))
  {
    var byTitle := byTitle0;
    groups, keys := groups0, keys0;
    ghost var first := NumberedAt(files, scoped, |files|);
    assert first + TitledAt(files, scoped, 0) == first;
    for i := 0 to |files|
      invariant Grouped(files, scoped, groups, keys, first + TitledAt(files, scoped, i))
      invariant TitleIndex(byTitle, keys, files, scoped)
    {
      hide Grouped, TitleIndex, Home;
      var f := files[i];
      if numbered[i] || f.titleKey == "" {
        assert TitledAt(files, scoped, i + 1) == TitledAt(files, scoped, i);
        continue;
      }
      ghost var done := first + TitledAt(files, scoped, i);
      assert first + TitledAt(files, scoped, i + 1) == done + {i};
      var idx;
      groups, keys, byTitle, idx := GroupForTitle(files, scoped, groups, keys, done, byTitle, TitleOf(scoped, f));
      JoinGroup(files, scoped, groups, keys, done, i, idx);
      groups := groups[idx := groups[idx] + [f]];
    }
  }

  method GroupForTitle(files: seq<File>, scoped: bool, groups: seq<seq<File>>, ghost keys: seq<Key>,
                       ghost done: set<int>, byTitle: map<TitleKey, nat>, t: TitleKey)
    returns (groups': seq<seq<File>>, ghost keys': seq<Key>, byTitle': map<TitleKey, nat>, idx: nat)
    requires Grouped(files, scoped, groups, keys, done) && TitleIndex(byTitle, keys, files, scoped)
    ensures Grouped(files, scoped, groups', keys', done) && TitleIndex(byTitle', keys', files, scoped)
    ensures idx < |keys'| == |groups'| && keys'[idx] == KeyOfTitle(files, scoped, t)
  {
    hide Home;
    groups', keys', byTitle' := groups, keys, byTitle;
    if t !in byTitle {
      OpenGroup(files, scoped, groups, keys, done, ByTitle(t));
      groups', keys' := groups + [[]], keys + [ByTitle(t)];
      byTitle' := byTitle[t := |groups'| - 1];
    }
    idx := byTitle'[t];
  }

  // ---------------------------------------------------------------- the losers

  /** Every file of the folder that can be identified is in the group of its key. */
  lemma GroupsAreKeys(files: seq<File>, groups: seq<seq<File>>, keys: seq<Key>, f: File)
    requires var scoped := ManyAlbums(files);
             Grouped(files, scoped, groups, keys, NumberedAt(files, scoped, |files|) + TitledAt(files, scoped, |files|))
    ensures forall g | 0 <= g < |groups| :: f in groups[g] <==> f in files && KeyOf(files, f) == keys[g]
    ensures f in files && KeyOf(files, f) != Unidentified ==> KeyOf(files, f) in keys
  {
    hide Home, ManyAlbums;
    var scoped := ManyAlbums(files);
    var done := NumberedAt(files, scoped, |files|) + TitledAt(files, scoped, |files|);
    if f in files && KeyOf(files, f) != Unidentified {
      var i :| 0 <= i < |files| && files[i] == f;
      assert i in done;
      assert Somewhere(groups, files[i]);
    }
    forall g | 0 <= g < |groups| && f in groups[g] ensures f in files && KeyOf(files, f) == keys[g] {
      assert At(files, done, f);
    }
  }

  method DedupFiles(files: seq<File>) returns (losers: seq<File>)
    ensures forall f :: f in losers <==> f in files && Lost(files, f)
    ensures DistinctPaths(files) ==> DistinctPaths(losers)
  {
    var scoped := MultiAlbum(files);
    assert scoped == ManyAlbums(files);
    var groups, byTitle, numbered;
    ghost var keys;
    groups, keys, byTitle, numbered := GroupNumbered(files, scoped);
    groups, keys := GroupTitled(files, scoped, numbered, groups, keys, byTitle);
    ghost var done := NumberedAt(files, scoped, |files|) + TitledAt(files, scoped, |files|);
    forall f, n | 0 <= n < |groups|
      ensures f in groups[n] <==> f in files && KeyOf(files, f) == keys[n]
    {
      GroupsAreKeys(files, groups, keys, f);
    }
    forall f | f in files && KeyOf(files, f) != Unidentified ensures KeyOf(files, f) in keys {
      GroupsAreKeys(files, groups, keys, f);
    }
    losers := CollectLosers(files, groups, keys);
    assert keys[..|keys|] == keys;
  }

  method CollectLosers(files: seq<File>, groups: seq<seq<File>>, ghost keys: seq<Key>) returns (losers: seq<File>)
    requires |groups| == |keys| && Unidentified !in keys
    requires forall g, h | 0 <= g < h < |keys| :: keys[g] != keys[h]
    requires forall f, n | 0 <= n < |groups| :: f in groups[n] <==> f in files && KeyOf(files, f) == keys[n]
    requires DistinctPaths(files) ==> forall n | 0 <= n < |groups| :: DistinctPaths(groups[n])
    ensures forall f :: f in losers <==> f in files && Lost(files, f) && KeyOf(files, f) in keys[..|keys|]
    ensures DistinctPaths(files) ==> DistinctPaths(losers)
  {
    losers := [];
    for n := 0 to |groups|
      invariant forall f :: f in losers <==> f in files && Lost(files, f) && KeyOf(files, f) in keys[..n]
      invariant DistinctPaths(files) ==> DistinctPaths(losers)
    {
      hide Lost, KeyOf;
      assert keys[n] in keys && keys[..n + 1] == keys[..n] + [keys[n]] && keys[n] !in keys[..n];
      assert forall f :: f in groups[n] <==> f in files && KeyOf(files, f) == keys[n];
      var lost := LosersOf(files, groups[n], keys[n]);
      if DistinctPaths(files) {
        OtherGroupOtherPaths(files, losers, lost, keys[..n], keys[n]);
      }
      losers := losers + lost;
    }
  }

  lemma SamePathSameFile(files: seq<File>, f: File, g: File)
    requires DistinctPaths(files) && f in files && g in files && f.path == g.path
    ensures f == g
  {
    var i :| 0 <= i < |files| && files[i] == f;
    var j :| 0 <= j < |files| && files[j] == g;
    assert !(i < j) && !(j < i);
  }

  lemma OtherGroupOtherPaths(files: seq<File>, a: seq<File>, b: seq<File>, keys: seq<Key>, key: Key)
    requires DistinctPaths(files) && DistinctPaths(a) && DistinctPaths(b) && key !in keys
    requires forall f | f in a :: f in files && KeyOf(files, f) in keys
    requires forall f | f in b :: f in files && KeyOf(files, f) == key
    ensures DistinctPaths(a + b)
  {
    hide KeyOf;
    forall i, j | 0 <= i < |a| && 0 <= j < |b| ensures a[i].path != b[j].path {
      assert a[i] in a && b[j] in b;
      if a[i].path == b[j].path {
        SamePathSameFile(files, a[i], b[j]);
      }
    }
  }

  /** A group's unbeaten files share their path, so the winner decides who is lost. */
  lemma WinnerDecides(files: seq<File>, g: seq<File>, key: Key, w: File, f: File)
    requires forall h :: h in g <==> h in files && KeyOf(files, h) == key
    requires key != Unidentified && Unbeaten(g, w) && f in g
    ensures Lost(files, f) <==> f.path != w.path
  {
    hide KeyOf;
    assert Best(files, w);
    forall v | Best(files, v) && KeyOf(files, v) == key ensures v.path == w.path {
      BetterIsStrict(v, w, v);
      assert v in g;
    }
  }

  method LosersOf(files: seq<File>, g: seq<File>, ghost key: Key) returns (lost: seq<File>)
    requires forall f :: f in g <==> f in files && KeyOf(files, f) == key
    requires key != Unidentified
    ensures forall f :: f in lost <==> f in files && KeyOf(files, f) == key && Lost(files, f)
    ensures DistinctPaths(g) ==> DistinctPaths(lost)
  {
    hide KeyOf, Lost, Unbeaten;
    lost := [];
    if g == [] {
      return;
    }
    var w := Winner(g);
    forall f | f in g ensures Lost(files, f) <==> f.path != w.path {
      WinnerDecides(files, g, key, w, f);
    }
    if |g| < 2 {
      assert w in g by { assert Unbeaten(g, w); }
      return;
    }
    for i := 0 to |g|
      invariant forall f :: f in lost <==> f in g[..i] && f.path != w.path
      invariant DistinctPaths(g) ==> DistinctPaths(lost)
    {
      if DistinctPaths(g) {
        forall a | 0 <= a < |lost| ensures lost[a].path != g[i].path {
          assert lost[a] in lost;
        }
      }
      if g[i].path != w.path {
        lost := lost + [g[i]];
      }
    }
  }

  // ---------------------------------------------------------------- one survivor each

  /** Among the first `n` files some file of `f`'s group is unbeaten there, and no worse than `f`. */
  lemma {:induction false} BestOfPrefix(files: seq<File>, n: nat, f: File) returns (w: File)
    requires n <= |files| && f in files[..n]
    ensures w in files[..n] && KeyOf(files, w) == KeyOf(files, f) && (w == f || Better(w, f))
    ensures forall g | g in files[..n] && KeyOf(files, g) == KeyOf(files, f) :: !Better(g, w)
  {
    hide KeyOf;
    var last := files[n - 1];
    BetterIsStrict(f, f, f);
    assert files[..n] == files[..n - 1] + [last];
    if f in files[..n - 1] {
      w := BestOfPrefix(files, n - 1, f);
      BetterIsStrict(last, w, f);
      if KeyOf(files, last) == KeyOf(files, f) && Better(last, w) {
        forall g | g in files[..n - 1] && KeyOf(files, g) == KeyOf(files, f) ensures !Better(g, last) {
          BetterIsStrict(g, last, w);
        }
        w := last;
        BetterIsStrict(w, w, w);
      }
    } else {
      w := f;
      if exists g :: g in files[..n - 1] && KeyOf(files, g) == KeyOf(files, f) {
        var g :| g in files[..n - 1] && KeyOf(files, g) == KeyOf(files, f);
        var v := BestOfPrefix(files, n - 1, g);
        BetterIsStrict(v, f, f);
        if Better(v, f) {
          w := v;
          BetterIsStrict(f, v, f);
        } else {
          forall h | h in files[..n - 1] && KeyOf(files, h) == KeyOf(files, f) ensures !Better(h, f) {
            NoBetterThrough(h, v, f);
          }
        }
      }
    }
  }

  lemma NoBetterThrough(h: File, v: File, f: File)
    requires !Better(h, v) && !Better(v, f)
    ensures !Better(h, f)
  {
    StrLessTotal(h.path, v.path);
    StrLessTotal(v.path, f.path);
    if StrLess(f.path, v.path) && StrLess(v.path, h.path) {
      StrLessTransitive(f.path, v.path, h.path);
    }
    StrLessTotal(h.path, f.path);
  }

  /** Each identifiable track keeps exactly one of its files, and every other copy is beaten by it. */
  lemma OneSurvivorEach(files: seq<File>, f: File) returns (w: File)
    requires DistinctPaths(files) && f in files && KeyOf(files, f) != Unidentified
    ensures w in files && KeyOf(files, w) == KeyOf(files, f) && !Lost(files, w)
    ensures forall v | v in files && KeyOf(files, v) == KeyOf(files, f) :: v == w || (Lost(files, v) && Better(w, v))
  {
    hide KeyOf;
    assert files[..|files|] == files;
    w := BestOfPrefix(files, |files|, f);
    assert Best(files, w);
    forall v | v in files && KeyOf(files, v) == KeyOf(files, f)
      ensures v == w || (Lost(files, v) && Better(w, v))
      ensures Best(files, v) ==> v.path == w.path
    {
      BetterIsStrict(w, v, v);
      if v.path == w.path {
        SamePathSameFile(files, v, w);
      }
    }
  }

  /** What cannot be identified is never removed. */
  lemma UnidentifiedStays(files: seq<File>, f: File)
    requires f in files && f.titleKey == "" && !Numbered(ManyAlbums(files), f)
    ensures !Lost(files, f)
  {
  }

  ghost function SurvivorsIn(files: seq<File>, keys: set<Key>): set<File> {
    set f | f in files && !Lost(files, f) && KeyOf(files, f) in keys
  }

  ghost function Tracks(files: seq<File>): set<Key> {
    set f | f in files && KeyOf(files, f) != Unidentified :: KeyOf(files, f)
  }

  lemma {:induction false} OneSurvivorPerKey(files: seq<File>, keys: set<Key>)
    requires DistinctPaths(files) && keys <= Tracks(files)
    ensures |SurvivorsIn(files, keys)| == |keys|
    decreases |keys|
  {
    hide KeyOf, Lost;
    if keys == {} {
      assert SurvivorsIn(files, keys) == {};
    } else {
      var k := ElementOf(keys);
      var f :| f in files && KeyOf(files, f) != Unidentified && KeyOf(files, f) == k;
      var w := OneSurvivorEach(files, f);
      OneSurvivorPerKey(files, keys - {k});
      assert SurvivorsIn(files, keys) == SurvivorsIn(files, keys - {k}) + {w};
    }
  }

  /** As many files survive as there are tracks, plus the files that name no track. */
  lemma SurvivorsCount(files: seq<File>)
    requires DistinctPaths(files)
    ensures |set f | f in files && !Lost(files, f)|
         == |Tracks(files)| + |set f | f in files && KeyOf(files, f) == Unidentified|
  {
    hide KeyOf;
    OneSurvivorPerKey(files, Tracks(files));
    var loners := set f | f in files && KeyOf(files, f) == Unidentified;
    assert (set f | f in files && !Lost(files, f)) == SurvivorsIn(files, Tracks(files)) + loners;
    assert SurvivorsIn(files, Tracks(files)) !! loners;
  }

  // ---------------------------------------------------------------- albums

  lemma {:induction false} HomeIs(files: seq<File>, scoped: bool, t: TitleKey)
    ensures Home(files, scoped, t).Some? <==>
            exists g :: g in files && Numbered(scoped, g) && g.titleKey != "" && TitleOf(scoped, g) == t
    ensures Home(files, scoped, t).Some? ==>
            exists g :: g in files && Numbered(scoped, g) && g.titleKey != "" && TitleOf(scoped, g) == t
                        && NumOf(scoped, g) == Home(files, scoped, t).value
  {
    if files != [] {
      var init, last := files[..|files| - 1], files[|files| - 1];
      HomeIs(init, scoped, t);
      assert files == init + [last];
      assert last in files && forall g :: g in init ==> g in files;
    }
  }

  /** In a folder of several albums a copy is only ever removed for one of the same album. */
  lemma CopiesShareAlbum(files: seq<File>, f: File, g: File)
    requires ManyAlbums(files) && f in files && g in files
    requires KeyOf(files, f) == KeyOf(files, g) != Unidentified
    ensures f.albumKey == g.albumKey
  {
    HomeIs(files, true, TitleOf(true, f));
    HomeIs(files, true, TitleOf(true, g));
  }

  function WithoutAlbum(f: File): File {
    f.(albumKey := "")
  }

  function WithoutAlbums(files: seq<File>): seq<File> {
    seq(|files|, i requires 0 <= i < |files| => WithoutAlbum(files[i]))
  }

  lemma {:induction false} HomeWithoutAlbums(files: seq<File>, t: TitleKey)
    ensures Home(WithoutAlbums(files), false, t) == Home(files, false, t)
  {
    if files != [] {
      HomeWithoutAlbums(files[..|files| - 1], t);
      assert WithoutAlbums(files)[..|files| - 1] == WithoutAlbums(files[..|files| - 1]);
    }
  }

  /** A folder naming at most one album is deduplicated as if no file named any. */
  lemma SingleAlbumIgnoresAlbums(files: seq<File>, f: File)
    requires !ManyAlbums(files) && f in files
    ensures Lost(files, f) <==> Lost(WithoutAlbums(files), WithoutAlbum(f))
  {
    var bare := WithoutAlbums(files);
    assert !ManyAlbums(bare);
    forall i | 0 <= i < |files|
      ensures bare[i] == WithoutAlbum(files[i]) && KeyOf(bare, bare[i]) == KeyOf(files, files[i])
    {
      HomeWithoutAlbums(files, TitleOf(false, files[i]));
    }
    forall g | g in files ensures WithoutAlbum(g) in bare && KeyOf(bare, WithoutAlbum(g)) == KeyOf(files, g) {
      var i :| 0 <= i < |files| && files[i] == g;
      assert bare[i] in bare;
    }
    hide KeyOf, ManyAlbums;
    forall b | b in bare ensures exists g :: g in files && WithoutAlbum(g) == b {
      var i :| 0 <= i < |bare| && bare[i] == b;
      assert files[i] in files;
    }
    forall w | w in files ensures Best(files, w) <==> Best(bare, WithoutAlbum(w)) {
    }
  }

  // ---------------------------------------------------------------- a second run

  ghost function KeptFrom(files: seq<File>, part: seq<File>): seq<File> {
    if part == [] then []
    else KeptFrom(files, part[..|part| - 1]) + if Lost(files, part[|part| - 1]) then [] else [part[|part| - 1]]
  }

  /** What is left in the folder, in listing order. */
  ghost function Kept(files: seq<File>): seq<File> {
    KeptFrom(files, files)
  }

  lemma {:induction false} KeptIs(files: seq<File>, part: seq<File>)
    requires DistinctPaths(part)
    ensures forall f :: f in KeptFrom(files, part) <==> f in part && !Lost(files, f)
    ensures DistinctPaths(KeptFrom(files, part))
  {
    hide Lost;
    if part != [] {
      var init, last := part[..|part| - 1], part[|part| - 1];
      assert part == init + [last];
      KeptIs(files, init);
      var kept := KeptFrom(files, init);
      forall i | 0 <= i < |kept| ensures kept[i].path != last.path {
        assert kept[i] in init;
      }
    }
  }

  lemma AlbumsSurvive(files: seq<File>)
    requires DistinctPaths(files)
    ensures ManyAlbums(Kept(files)) <==> ManyAlbums(files)
  {
    hide Lost;
    KeptIs(files, files);
    if ManyAlbums(files) {
      var f, g :| f in files && g in files && f.albumKey != "" && g.albumKey != "" && f.albumKey != g.albumKey;
      var f' := AlbumSurvives(files, f);
      var g' := AlbumSurvives(files, g);
      assert f' in Kept(files) && g' in Kept(files);
    }
  }

  lemma AlbumSurvives(files: seq<File>, f: File) returns (w: File)
    requires DistinctPaths(files) && ManyAlbums(files) && f in files
    ensures w in files && !Lost(files, w) && w.albumKey == f.albumKey
  {
    w := f;
    if KeyOf(files, f) != Unidentified {
      w := OneSurvivorEach(files, f);
      CopiesShareAlbum(files, f, w);
    }
  }

  /** A winner without a track number bears the title of a winner with one. */
  ghost predicate TitleStraddles(files: seq<File>) {
    var scoped := ManyAlbums(files);
    exists f, g :: f in files && g in files && !Lost(files, f) && !Lost(files, g)
                   && !Numbered(scoped, f) && Numbered(scoped, g)
                   && f.titleKey != "" && g.titleKey != "" && TitleOf(scoped, f) == TitleOf(scoped, g)
  }

  lemma KeptWithOneKey(files: seq<File>, f: File, g: File)
    requires DistinctPaths(files) && f in files && g in files && !Lost(files, f) && !Lost(files, g)
    requires KeyOf(files, f) == KeyOf(files, g) != Unidentified
    ensures f == g
  {
    hide KeyOf;
    var w := OneSurvivorEach(files, f);
  }

  /** Deduplicating what is left removes something exactly if a title straddles that way. */
  lemma SecondRunRemovesIff(files: seq<File>)
    requires DistinctPaths(files)
    ensures (exists f :: f in Kept(files) && Lost(Kept(files), f)) <==> TitleStraddles(files)
  {
    var kept, scoped := Kept(files), ManyAlbums(files);
    KeptIs(files, files);
    AlbumsSurvive(files);
    if TitleStraddles(files) {
      hide Lost, ManyAlbums;
      var f, g :| f in files && g in files && !Lost(files, f) && !Lost(files, g)
                   && !Numbered(scoped, f) && Numbered(scoped, g)
                   && f.titleKey != "" && g.titleKey != "" && TitleOf(scoped, f) == TitleOf(scoped, g);
      HomeIs(kept, scoped, TitleOf(scoped, f));
      var h :| h in kept && Numbered(scoped, h) && NumOf(scoped, h) == Home(kept, scoped, TitleOf(scoped, f)).value;
      assert KeyOf(kept, f) == KeyOf(kept, h);
      var w := OneSurvivorEach(kept, f);
      assert f == w || Lost(kept, f);
      assert h == w || Lost(kept, h);
    }
    if exists f :: f in kept && Lost(kept, f) {
      var f :| f in kept && Lost(kept, f);
      var w :| Best(kept, w) && KeyOf(kept, w) == KeyOf(kept, f) && w.path != f.path;
      SecondGroupStraddles(files, f, w);
    }
  }

  lemma SecondGroupStraddles(files: seq<File>, f: File, w: File)
    requires DistinctPaths(files) && f in Kept(files) && w in Kept(files) && f != w
    requires KeyOf(Kept(files), f) == KeyOf(Kept(files), w) != Unidentified
    ensures TitleStraddles(files)
  {
    var kept, scoped := Kept(files), ManyAlbums(files);
    KeptIs(files, files);
    AlbumsSurvive(files);
    hide Lost, ManyAlbums;
    HomeIs(kept, scoped, TitleOf(scoped, f));
    HomeIs(kept, scoped, TitleOf(scoped, w));
    if KeyOf(files, f) == KeyOf(files, w) {
      KeptWithOneKey(files, f, w);
    }
  }

  /** With every file numbered, running twice is running once. */
  lemma NumberedIsIdempotent(files: seq<File>)
    requires DistinctPaths(files) && forall f | f in files :: Numbered(ManyAlbums(files), f)
    ensures forall f | f in Kept(files) :: !Lost(Kept(files), f)
  {
    hide Lost;
    SecondRunRemovesIff(files);
  }

  /** And without that it need not be: a title can straddle. */
  lemma NotIdempotentInGeneral() returns (files: seq<File>)
    ensures DistinctPaths(files) && TitleStraddles(files)
  {
    var a := File("a", 1, "", 0, 1, "t", false);
    var b := File("b", 1, "", 0, 2, "t", false);
    var c := File("c", 1, "", 0, 0, "t", true);
    files := [a, b, c];
    assert files[..2] == [a, b] && [a, b][..1] == [a] && [a][..0] == [];
    assert !ManyAlbums(files);
    assert Home([a], false, ("", "t")) == Some(("", 0, 1));
    assert Home(files, false, ("", "t")) == Some(("", 0, 1));
    assert KeyOf(files, a) == KeyOf(files, c) == ByNum(("", 0, 1)) && KeyOf(files, b) == ByNum(("", 0, 2));
    assert Best(files, b) && Best(files, c);
    var vb := OneSurvivorEach(files, b);
    var vc := OneSurvivorEach(files, c);
    assert b == vb && c == vc;
  }
}
