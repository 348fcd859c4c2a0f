/**
 Which files of a folder are taken for copies of one track, and which of them are removed, in terms of
 disc, track, title, album, format and size alone.
*/
module TrackCopies {
  import opened Basics
  import opened TrackDedup

  /** The folder names more than one album, so that albums keep tracks apart. */
  ghost predicate NamesAlbums(files: seq<File>) {
    exists f, g :: f in files && g in files && f.albumKey != "" && g.albumKey != "" && f.albumKey != g.albumKey
  }

  /** The file's track number can be trusted. */
  ghost predicate HasNumber(files: seq<File>, f: File) {
    f.track > 0 && (NamesAlbums(files) ==> f.albumKey != "")
  }

  ghost predicate SameAlbum(files: seq<File>, f: File, g: File) {
    NamesAlbums(files) ==> f.albumKey == g.albumKey
  }

  ghost predicate SameNumber(files: seq<File>, f: File, g: File) {
    f.disc == g.disc && f.track == g.track && SameAlbum(files, f, g)
  }

  ghost predicate SameTitle(files: seq<File>, f: File, g: File) {
    f.titleKey == g.titleKey != "" && SameAlbum(files, f, g)
  }

  /** `files[i]` is the first numbered file with the title of `f`. */
  ghost predicate FirstBearer(files: seq<File>, i: nat, f: File) {
    && i < |files| && HasNumber(files, files[i]) && SameTitle(files, files[i], f)
    && forall j | 0 <= j < i :: !(HasNumber(files, files[j]) && SameTitle(files, files[j], f))
  }

  /** The numbered file whose number `f` counts under: itself, or for lack of one the first with its title. */
  ghost predicate CountsUnder(files: seq<File>, f: File, h: File) {
    if HasNumber(files, f) then h == f
    else exists i: nat :: FirstBearer(files, i, f) && files[i] == h
  }

  /** Copies of one track: under the same number, or by title if neither counts under any. */
  ghost predicate Copies(files: seq<File>, f: File, g: File) {
    || (exists h, k :: CountsUnder(files, f, h) && CountsUnder(files, g, k) && SameNumber(files, h, k))
    || ((forall h :: !CountsUnder(files, f, h) && !CountsUnder(files, g, h)) && SameTitle(files, f, g))
  }

  /** Lossless beats lossy, then the larger size, then the smaller path. */
  predicate Outranks(w: File, f: File) {
    || (w.lossless && !f.lossless)
    || (w.lossless == f.lossless && w.size > f.size)
    || (w.lossless == f.lossless && w.size == f.size && StrLess(w.path, f.path))
  }

  // ---------------------------------------------------------------- the keys are these

  lemma NumberedMeansHasNumber(files: seq<File>, f: File)
    ensures Numbered(ManyAlbums(files), f) <==> HasNumber(files, f)
  {
  }

  ghost predicate BearsAt(files: seq<File>, scoped: bool, t: TitleKey, i: nat)
    requires i < |files|
  {
    Numbered(scoped, files[i]) && files[i].titleKey != "" && TitleOf(scoped, files[i]) == t
  }

  lemma {:induction false} HomeIsFirst(files: seq<File>, scoped: bool, t: TitleKey)
    ensures Home(files, scoped, t).None? ==> forall i: nat | i < |files| :: !BearsAt(files, scoped, t, i)
    ensures Home(files, scoped, t).Some? ==>
              exists i: nat | i < |files| ::
                && BearsAt(files, scoped, t, i) && (forall j: nat | j < i :: !BearsAt(files, scoped, t, j))
                && Home(files, scoped, t) == Some(NumOf(scoped, files[i]))
  {
    if files != [] {
      hide NumOf, TitleOf, Numbered;
      var init, n := files[..|files| - 1], |files| - 1;
      HomeIsFirst(init, scoped, t);
      assert forall i: nat | i < n :: BearsAt(files, scoped, t, i) <==> BearsAt(init, scoped, t, i);
      if Home(init, scoped, t).None? {
        assert Home(files, scoped, t).Some? <==> BearsAt(files, scoped, t, n);
      }
    }
  }

  lemma BearsIs(files: seq<File>, f: File, i: nat)
    requires i < |files| && f.titleKey != ""
    ensures var scoped := ManyAlbums(files);
            BearsAt(files, scoped, TitleOf(scoped, f), i)
            <==> HasNumber(files, files[i]) && SameTitle(files, files[i], f)
  {
  }

  /** An unnumbered file's home is the number of the file it counts under. */
  lemma HomeIsCountedUnder(files: seq<File>, f: File)
    requires f.titleKey != "" && !HasNumber(files, f)
    ensures var (scoped, home) := (ManyAlbums(files), Home(files, ManyAlbums(files), TitleOf(ManyAlbums(files), f)));
            && (home.None? ==> forall h :: !CountsUnder(files, f, h))
            && (home.Some? ==> exists h :: CountsUnder(files, f, h) && NumOf(scoped, h) == home.value)
            && (forall h | CountsUnder(files, f, h) :: home == Some(NumOf(scoped, h)))
  {
    hide HasNumber, SameTitle, NumOf, TitleOf, Home;
    var scoped := ManyAlbums(files);
    var t := TitleOf(scoped, f);
    HomeIsFirst(files, scoped, t);
    forall i: nat | i < |files|
      ensures BearsAt(files, scoped, t, i) <==> HasNumber(files, files[i]) && SameTitle(files, files[i], f)
    {
      BearsIs(files, f, i);
    }
    hide BearsAt;
    if home: nat :| home < |files| && BearsAt(files, scoped, t, home)
                    && (forall j: nat | j < home :: !BearsAt(files, scoped, t, j))
                    && Home(files, scoped, t) == Some(NumOf(scoped, files[home])) {
      assert FirstBearer(files, home, f);
      forall i: nat | FirstBearer(files, i, f) ensures i == home {}
    } else {
      forall i: nat ensures !FirstBearer(files, i, f) {}
    }
  }

  lemma NumOfIs(files: seq<File>, h: File, k: File)
    ensures NumOf(ManyAlbums(files), h) == NumOf(ManyAlbums(files), k) <==> SameNumber(files, h, k)
  {
  }

  lemma TitleOfIs(files: seq<File>, f: File, g: File)
    requires f.titleKey != ""
    ensures TitleOf(ManyAlbums(files), f) == TitleOf(ManyAlbums(files), g) <==> SameTitle(files, f, g)
    ensures SameTitle(files, f, g) ==> g.titleKey != ""
  {
  }

  /** A file's key is its number, the number it counts under, its title, or nothing. */
  lemma KeyIs(files: seq<File>, f: File)
    ensures var (scoped, k) := (ManyAlbums(files), KeyOf(files, f));
            && (k.Unidentified? <==> !HasNumber(files, f) && f.titleKey == "")
            && (k.ByNum? <==> exists h :: CountsUnder(files, f, h))
            && (forall h | CountsUnder(files, f, h) :: k == ByNum(NumOf(scoped, h)))
            && (k.ByTitle? ==> k == ByTitle(TitleOf(scoped, f)) && f.titleKey != "")
  {
    NumberedMeansHasNumber(files, f);
    hide HasNumber, NumOf, TitleOf, ManyAlbums, SameTitle, Home;
    if HasNumber(files, f) {
      assert CountsUnder(files, f, f);
    } else if f.titleKey != "" {
      HomeIsCountedUnder(files, f);
    } else {
      forall i: nat ensures !FirstBearer(files, i, f) {
        NoTitleNoBearer(files, i, f);
      }
    }
  }

  lemma NoTitleNoBearer(files: seq<File>, i: nat, f: File)
    requires f.titleKey == ""
    ensures !FirstBearer(files, i, f)
  {
  }

  /** Two files are grouped together exactly if they are copies. */
  lemma GroupedIffCopies(files: seq<File>, f: File, g: File)
    ensures KeyOf(files, f) == KeyOf(files, g) != Unidentified <==> Copies(files, f, g)
  {
    KeyIs(files, f);
    KeyIs(files, g);
    hide KeyOf, CountsUnder, NumOf, TitleOf, SameNumber, SameTitle, ManyAlbums, HasNumber;
    if f.titleKey != "" {
      TitleOfIs(files, f, g);
    } else {
      NoTitleNotSame(files, f, g);
    }
    if h :| CountsUnder(files, f, h) {
      if k :| CountsUnder(files, g, k) {
        forall h, k | CountsUnder(files, f, h) && CountsUnder(files, g, k)
          ensures KeyOf(files, f) == KeyOf(files, g) <==> SameNumber(files, h, k)
        {
          NumOfIs(files, h, k);
        }
        assert Copies(files, f, g) <==> SameNumber(files, h, k);
      } else {
        assert !KeyOf(files, g).ByNum?;
      }
    } else {
      assert !KeyOf(files, f).ByNum?;
      if k :| CountsUnder(files, g, k) {
        assert KeyOf(files, g).ByNum?;
      }
    }
  }

  lemma NoTitleNotSame(files: seq<File>, f: File, g: File)
    requires f.titleKey == ""
    ensures !SameTitle(files, f, g)
  {
  }

  lemma OutranksIsBetter(w: File, f: File)
    ensures Outranks(w, f) <==> Better(w, f)
  {
  }

  /** A file is removed exactly if a copy outranks it. */
  lemma RemovedIffOutranked(files: seq<File>, f: File)
    requires DistinctPaths(files) && f in files
    ensures Lost(files, f) <==> exists w :: w in files && Copies(files, f, w) && Outranks(w, f)
  {
    hide KeyOf, Copies, Better, Outranks;
    if Lost(files, f) {
      var w := OneSurvivorEach(files, f);
      GroupedIffCopies(files, f, w);
      OutranksIsBetter(w, f);
    }
    if w :| w in files && Copies(files, f, w) && Outranks(w, f) {
      GroupedIffCopies(files, f, w);
      OutranksIsBetter(w, f);
      var best := OneSurvivorEach(files, f);
      if best == f {
        BetterIsStrict(f, w, f);
      }
    }
  }

  /** And of every set of copies one stays, which outranks all the others. */
  lemma OneCopyStays(files: seq<File>, f: File) returns (w: File)
    requires DistinctPaths(files) && f in files && (HasNumber(files, f) || f.titleKey != "")
    ensures w in files && Copies(files, f, w) && !Lost(files, w)
    ensures forall v | v in files && Copies(files, f, v) && v != w :: Lost(files, v) && Outranks(w, v)
  {
    hide KeyOf, Copies, Better, Outranks, HasNumber, CountsUnder;
    KeyIs(files, f);
    w := OneSurvivorEach(files, f);
    GroupedIffCopies(files, f, w);
    forall v | v in files && Copies(files, f, v) && v != w ensures Lost(files, v) && Outranks(w, v) {
      GroupedIffCopies(files, f, v);
      OutranksIsBetter(w, v);
    }
  }
}
