/**
 Ranking search results into candidates: group by (user, directory), reduce each group to one format,
 score, and sort best first. Both the groups and the formats of a group sit in maps, which are ranged
 over in no fixed order.
*/
module Ranking {
  import opened Basics
  import opened SearchResults
  import opened Formats
  import opened Reliability

  datatype Weights = Weights(format: real, bitrate: real, reliability: real, fileCount: real, knownUser: real)

  /** `dirOf`, `trackKey`: path and regular-expression functions; `history`: each user's history score. */
  datatype Config = Config(
    w: Weights, minBitrate: int, dirOf: string -> string, trackKey: string -> string, history: string -> real)


  datatype Candidate = Candidate(username: string, files: seq<SearchResult>, score: real, lastResort: bool)

  /** (username, release directory) */
  type Key = (string, string)

  predicate PassesFloor(cfg: Config, r: SearchResult) {
    FormatScore(r.filename) >= 1.0 || r.bitRate >= cfg.minBitrate
  }

  function KeyOf(cfg: Config, r: SearchResult): Key {
    (r.username, cfg.dirOf(r.filename))
  }

  function Group(cfg: Config, results: seq<SearchResult>, k: Key): seq<SearchResult> {
    if results == [] then []
    else
      var last := results[|results| - 1];
      Group(cfg, results[..|results| - 1], k) + if PassesFloor(cfg, last) && KeyOf(cfg, last) == k then [last] else []
  }

  function Keys(cfg: Config, results: seq<SearchResult>): set<Key> {
    set r | r in results && PassesFloor(cfg, r) :: KeyOf(cfg, r)
  }

  lemma {:induction false} GroupIs(cfg: Config, results: seq<SearchResult>, k: Key)
    ensures forall r :: r in Group(cfg, results, k) <==> r in results && PassesFloor(cfg, r) && KeyOf(cfg, r) == k
    ensures k in Keys(cfg, results) <==> Group(cfg, results, k) != []
  {
    hide PassesFloor, KeyOf;
    if results != [] {
      var init, last := results[..|results| - 1], results[|results| - 1];
      assert results == init + [last];
      GroupIs(cfg, init, k);
    }
    if Group(cfg, results, k) != [] {
      assert Group(cfg, results, k)[0] in results;
    }
  }

  ghost predicate Grouped(groups: map<Key, seq<SearchResult>>, cfg: Config, results: seq<SearchResult>) {
    && (forall k :: k in groups <==> Group(cfg, results, k) != [])
    && (forall k | k in groups :: groups[k] == Group(cfg, results, k))
  }

  function WithResult(groups: map<Key, seq<SearchResult>>, cfg: Config, r: SearchResult): map<Key, seq<SearchResult>> {
    if !PassesFloor(cfg, r) then groups
    else var k := KeyOf(cfg, r); groups[k := (if k in groups then groups[k] else []) + [r]]
  }

  lemma GroupSnoc(groups: map<Key, seq<SearchResult>>, cfg: Config, results: seq<SearchResult>, n: nat)
    requires n < |results| && Grouped(groups, cfg, results[..n])
    ensures Grouped(WithResult(groups, cfg, results[n]), cfg, results[..n + 1])
  {
    hide PassesFloor, KeyOf;
    var part := results[..n + 1];
    assert part[..n] == results[..n] && part[n] == results[n] && |part| - 1 == n;
    forall k ensures Group(cfg, part, k) == Group(cfg, results[..n], k)
                       + if PassesFloor(cfg, results[n]) && KeyOf(cfg, results[n]) == k then [results[n]] else [] {
    }
  }

  method GroupResults(cfg: Config, results: seq<SearchResult>) returns (groups: map<Key, seq<SearchResult>>)
    ensures groups.Keys == Keys(cfg, results)
    ensures forall k | k in groups :: groups[k] == Group(cfg, results, k)
  {
    groups := map[];
    for n := 0 to |results|
      invariant Grouped(groups, cfg, results[..n])
    {
      hide Grouped;
      GroupSnoc(groups, cfg, results, n);
      if PassesFloor(cfg, results[n]) {
        var k := KeyOf(cfg, results[n]);
        groups := groups[k := (if k in groups then groups[k] else []) + [results[n]]];
      }
    }
    assert results[..|results|] == results;
    forall k ensures k in groups <==> k in Keys(cfg, results) {
      GroupIs(cfg, results, k);
    }
  }

  // ---------------------------------------------------------------- scoring

  function FileScore(w: Weights, f: SearchResult): real {
    w.format * FormatScore(f.filename) + w.bitrate * (f.bitRate as real / 1000.0)
  }

  function FilesScore(w: Weights, files: seq<SearchResult>): real {
    if files == [] then 0.0 else FilesScore(w, files[..|files| - 1]) + FileScore(w, files[|files| - 1])
  }

  /** What does not depend on the single files. */
  function PeerScore(cfg: Config, username: string, files: seq<SearchResult>): real
    requires files != []
  {
    cfg.w.fileCount * |files| as real
    + cfg.w.reliability * ReliabilityScore(files[0].hasFreeUploadSlot, files[0].queueLength)
    + cfg.w.knownUser * cfg.history(username)
  }

  function CandidateOf(cfg: Config, username: string, files: seq<SearchResult>): Candidate
    requires files != []
  {
    Candidate(username, files, FilesScore(cfg.w, files) + PeerScore(cfg, username, files),
              cfg.history(username) <= LAST_RESORT_THRESHOLD)
  }

  method ScoreCandidate(cfg: Config, username: string, files: seq<SearchResult>) returns (c: Candidate)
    requires files != []
    ensures c == CandidateOf(cfg, username, files)
  {
    hide FileScore, PeerScore;
    var score := 0.0;
    for n := 0 to |files|
      invariant score == FilesScore(cfg.w, files[..n])
    {
      assert files[..n + 1][..n] == files[..n];
      score := score + FileScore(cfg.w, files[n]);
    }
    assert files[..|files|] == files;
    score := score + PeerScore(cfg, username, files);
    c := Candidate(username, files, score, cfg.history(username) <= LAST_RESORT_THRESHOLD);
  }

  /** The files a group is reduced to when its formats are ranged over in this order. */
  function Reduced(cfg: Config, group: seq<SearchResult>, order: seq<string>): seq<SearchResult> {
    Firsts(Bucket(group, Pick(group, order)), cfg.trackKey)
  }

  lemma {:induction false} PickIsListed(files: seq<SearchResult>, order: seq<string>)
    requires order != []
    ensures Pick(files, order) in order
  {
    var init, last := order[..|order| - 1], order[|order| - 1];
    assert order == init + [last];
    if init != [] {
      PickIsListed(files, init);
    }
  }

  /** One format of the group, one file per track of that format, and no track of it missing. */
  lemma ReducedIs(cfg: Config, group: seq<SearchResult>, order: seq<string>)
    requires group != [] && Enumerates(order, Exts(group))
    ensures var files := Reduced(cfg, group, order);
            && files != []
            && (forall f | f in files :: f in group && ExtOf(f.filename) == Pick(group, order))
            && (forall i, j | 0 <= i < j < |files| ::
                  cfg.trackKey(files[i].filename) != cfg.trackKey(files[j].filename))
            && (forall g | g in group && ExtOf(g.filename) == Pick(group, order) ::
                  HasTrack(files, cfg.trackKey, cfg.trackKey(g.filename)))
  {
    hide ExtOf, Pick;
    assert ExtOf(group[0].filename) in Exts(group);
    assert order != [];
    PickIsListed(group, order);
    var bucket := Bucket(group, Pick(group, order));
    BucketIs(group, Pick(group, order));
    FirstsIs(bucket, cfg.trackKey);
    forall g | g in bucket ensures HasTrack(bucket, cfg.trackKey, cfg.trackKey(g.filename)) {
      var i :| 0 <= i < |bucket| && bucket[i] == g;
    }
  }

  // ---------------------------------------------------------------- the order

  function FirstName(c: Candidate): string {
    if c.files == [] then "" else c.files[0].filename
  }

  /** The comparator: the penalty tier outranks everything, then score, user and first file. */
  predicate Before(a: Candidate, b: Candidate) {
    if a.lastResort != b.lastResort then !a.lastResort
    else if a.score != b.score then a.score > b.score
    else if a.username != b.username then StrLess(a.username, b.username)
    else StrLess(FirstName(a), FirstName(b))
  }

  lemma BeforeIsTotal(a: Candidate, b: Candidate, c: Candidate)
    ensures !Before(a, a)
    ensures !(Before(a, b) && Before(b, a))
    ensures Before(a, b) && Before(b, c) ==> Before(a, c)
    ensures a.username != b.username || FirstName(a) != FirstName(b) ==> Before(a, b) || Before(b, a)
  {
    hide FirstName;
    StrLessTotal(a.username, b.username);
    StrLessTotal(FirstName(a), FirstName(b));
    StrLessTotal(FirstName(a), FirstName(a));
    if StrLess(a.username, b.username) && StrLess(b.username, c.username) {
      StrLessTransitive(a.username, b.username, c.username);
      StrLessTotal(a.username, c.username);
    }
    if StrLess(FirstName(a), FirstName(b)) && StrLess(FirstName(b), FirstName(c)) {
      StrLessTransitive(FirstName(a), FirstName(b), FirstName(c));
    }
  }

  ghost predicate Sorted(cs: seq<Candidate>) {
    forall i, j | 0 <= i < j < |cs| :: Before(cs[i], cs[j])
  }

  lemma {:induction false} SortedIsUnique(a: seq<Candidate>, b: seq<Candidate>)
    requires Sorted(a) && Sorted(b) && forall c :: c in a <==> c in b
    ensures a == b
    decreases |a|
  {
    hide Before;
    assert b != [] ==> b[0] in b && b[0] in a;
    if a != [] {
      assert a[0] in b && b != [] && b[0] in a;
      BeforeIsTotal(a[0], b[0], a[0]);
      var i :| 0 <= i < |b| && b[i] == a[0];
      var j :| 0 <= j < |a| && a[j] == b[0];
      assert a[0] == b[0];
      BeforeIsTotal(a[0], a[0], a[0]);
      assert a[0] !in a[1..] && b[0] !in b[1..];
      assert forall c :: c in a <==> c == a[0] || c in a[1..] by {
        assert a == [a[0]] + a[1..];
      }
      assert forall c :: c in b <==> c == b[0] || c in b[1..] by {
        assert b == [b[0]] + b[1..];
      }
      SortedIsUnique(a[1..], b[1..]);
    }
  }

  /** Where the library's sort may put one more element. */
  function InsertSorted(c: Candidate, cs: seq<Candidate>): seq<Candidate> {
    if cs == [] then [c]
    else if Before(c, cs[0]) then [c] + cs
    else [cs[0]] + InsertSorted(c, cs[1..])
  }

  lemma {:induction false} InsertKeepsSorted(c: Candidate, cs: seq<Candidate>)
    requires Sorted(cs) && forall d | d in cs :: Before(c, d) || Before(d, c)
    ensures Sorted(InsertSorted(c, cs)) && |InsertSorted(c, cs)| == |cs| + 1
    ensures forall d :: d in InsertSorted(c, cs) <==> d == c || d in cs
  {
    hide Before;
    if cs != [] {
      assert cs[0] in cs && cs == [cs[0]] + cs[1..];
      if Before(c, cs[0]) {
        forall i | 0 < i < |cs| ensures Before(c, cs[i]) {
          BeforeIsTotal(c, cs[0], cs[i]);
        }
      } else {
        InsertKeepsSorted(c, cs[1..]);
        var rest := InsertSorted(c, cs[1..]);
        forall i | 0 <= i < |rest| ensures Before(cs[0], rest[i]) {
          assert rest[i] in rest;
        }
      }
    }
  }

  // ---------------------------------------------------------------- ranking

  /** An order per group in which its formats were ranged over. */
  type Orders = map<Key, seq<string>>

  ghost predicate OrdersFor(cfg: Config, results: seq<SearchResult>, orders: Orders) {
    && orders.Keys == Keys(cfg, results)
    && forall k | k in orders :: Enumerates(orders[k], Exts(Group(cfg, results, k)))
  }

  ghost function CandidateIn(cfg: Config, results: seq<SearchResult>, k: Key, order: seq<string>): Candidate
    requires k in Keys(cfg, results) && Enumerates(order, Exts(Group(cfg, results, k)))
  {
    GroupIs(cfg, results, k);
    ReducedIs(cfg, Group(cfg, results, k), order);
    CandidateOf(cfg, k.0, Reduced(cfg, Group(cfg, results, k), order))
  }

  ghost function CandidateFor(cfg: Config, results: seq<SearchResult>, orders: Orders, k: Key): Candidate
    requires OrdersFor(cfg, results, orders) && k in orders
  {
    CandidateIn(cfg, results, k, orders[k])
  }

  ghost predicate Lists(cfg: Config, results: seq<SearchResult>, orders: Orders, keys: set<Key>, out: seq<Candidate>)
    requires OrdersFor(cfg, results, orders) && keys <= orders.Keys
  {
    && Sorted(out) && |out| == |keys|
    && (forall k | k in keys :: CandidateFor(cfg, results, orders, k) in out)
    && (forall c | c in out :: exists k :: k in keys && c == CandidateFor(cfg, results, orders, k))
  }

  ghost predicate IsRanking(cfg: Config, results: seq<SearchResult>, orders: Orders, out: seq<Candidate>) {
    OrdersFor(cfg, results, orders) && Lists(cfg, results, orders, orders.Keys, out)
  }

  /** Two candidates are never incomparable: they differ in user, or in the directory of their first file. */
  lemma CandidatesDiffer(cfg: Config, results: seq<SearchResult>, orders: Orders, j: Key, k: Key)
    requires OrdersFor(cfg, results, orders) && j in orders && k in orders && j != k
    ensures var (a, b) := (CandidateFor(cfg, results, orders, j), CandidateFor(cfg, results, orders, k));
            Before(a, b) || Before(b, a)
  {
    hide Before, Pick, ExtOf, PassesFloor, FilesScore, Reduced;
    var a, b := CandidateFor(cfg, results, orders, j), CandidateFor(cfg, results, orders, k);
    GroupIs(cfg, results, j);
    GroupIs(cfg, results, k);
    ReducedIs(cfg, Group(cfg, results, j), orders[j]);
    ReducedIs(cfg, Group(cfg, results, k), orders[k]);
    assert a.files[0] in Group(cfg, results, j) && b.files[0] in Group(cfg, results, k);
    BeforeIsTotal(a, b, a);
  }

  method ReduceGroup(cfg: Config, results: seq<SearchResult>, k: Key, group: seq<SearchResult>)
    returns (c: Candidate, ghost order: seq<string>)
    requires k in Keys(cfg, results) && group == Group(cfg, results, k)
    ensures Enumerates(order, Exts(group)) && c == CandidateIn(cfg, results, k, order)
  {
    hide Enumerates, Exts, CandidateOf, Pick, ExtOf, Keys;
    var files;
    files, order := DedupeTracks(group, cfg.trackKey);
    GroupIs(cfg, results, k);
    ReducedIs(cfg, group, order);
    c := ScoreCandidate(cfg, k.0, files);
  }

  method Rank(cfg: Config, results: seq<SearchResult>) returns (out: seq<Candidate>, ghost orders: Orders)
    ensures IsRanking(cfg, results, orders, out)
  {
    hide Enumerates, Exts, Keys, CandidateIn, Group;
    var groups := GroupResults(cfg, results);
    var cands: map<Key, Candidate> := map[];
    orders := map[];
    var rest := groups.Keys;
    while rest != {}
      invariant rest <= groups.Keys && orders.Keys == cands.Keys == groups.Keys - rest
      invariant forall k | k in orders :: Enumerates(orders[k], Exts(Group(cfg, results, k)))
      invariant forall k | k in orders :: cands[k] == CandidateIn(cfg, results, k, orders[k])
      decreases |rest|
    {
      var k := AnyOf(rest);
      rest := rest - {k};
      ghost var order;
      var c;
      c, order := ReduceGroup(cfg, results, k, groups[k]);
      cands, orders := cands[k := c], orders[k := order];
    }
    out := SortAll(cfg, results, orders, cands);
  }

  method SortAll(cfg: Config, results: seq<SearchResult>, ghost orders: Orders, cands: map<Key, Candidate>)
    returns (out: seq<Candidate>)
    requires OrdersFor(cfg, results, orders) && cands.Keys == orders.Keys
    requires forall k | k in cands :: cands[k] == CandidateFor(cfg, results, orders, k)
    ensures Lists(cfg, results, orders, orders.Keys, out)
  {
    hide CandidateFor, OrdersFor, InsertSorted, Keys, Enumerates;
    out := [];
    assert Lists(cfg, results, orders, {}, out);
    hide Lists;
    var rest := cands.Keys;
    ghost var done: set<Key> := {};
    while rest != {}
      invariant done + rest == cands.Keys && done !! rest
      invariant Lists(cfg, results, orders, done, out)
      decreases |rest|
    {
      var k := AnyOf(rest);
      InsertOne(cfg, results, orders, done, k, out);
      rest := rest - {k};
      done := done + {k};
      out := InsertSorted(cands[k], out);
    }
    assert done == orders.Keys;
  }

  lemma InsertOne(cfg: Config, results: seq<SearchResult>, orders: Orders, keys: set<Key>, k: Key, out: seq<Candidate>)
    requires OrdersFor(cfg, results, orders) && keys <= orders.Keys && k in orders && k !in keys
    requires Lists(cfg, results, orders, keys, out)
    ensures Lists(cfg, results, orders, keys + {k}, InsertSorted(CandidateFor(cfg, results, orders, k), out))
  {
    hide CandidateFor, OrdersFor, Sorted, Before, InsertSorted;
    var c := CandidateFor(cfg, results, orders, k);
    forall d | d in out ensures Before(c, d) || Before(d, c) {
      var j :| j in keys && d == CandidateFor(cfg, results, orders, j);
      CandidatesDiffer(cfg, results, orders, j, k);
    }
    InsertKeepsSorted(c, out);
  }

  // ---------------------------------------------------------------- what a ranking is

  /**
   Each (user, directory) with a file above the floor gives exactly one candidate: files of that
   directory in one format, one per track, every track of that format covered.
  */
  lemma OneCandidatePerDirectory(cfg: Config, results: seq<SearchResult>, orders: Orders, out: seq<Candidate>, k: Key)
    returns (i: nat)
    requires IsRanking(cfg, results, orders, out)
    requires exists r :: r in results && PassesFloor(cfg, r) && KeyOf(cfg, r) == k
    ensures i < |out|
    ensures var c, ext := out[i], Pick(Group(cfg, results, k), orders[k]);
            && c.username == k.0 && c.files != []
            && (forall f | f in c.files ::
                  f in results && PassesFloor(cfg, f) && KeyOf(cfg, f) == k && ExtOf(f.filename) == ext)
            && (forall m, n | 0 <= m < n < |c.files| ::
                  cfg.trackKey(c.files[m].filename) != cfg.trackKey(c.files[n].filename))
            && (forall r | r in results && PassesFloor(cfg, r) && KeyOf(cfg, r) == k && ExtOf(r.filename) == ext ::
                  HasTrack(c.files, cfg.trackKey, cfg.trackKey(r.filename)))
    ensures forall j | 0 <= j < |out| && j != i :: forall f | f in out[j].files :: KeyOf(cfg, f) != k
  {
    hide PassesFloor, Pick, ExtOf, Before, Enumerates;
    GroupIs(cfg, results, k);
    ReducedIs(cfg, Group(cfg, results, k), orders[k]);
    var c := CandidateFor(cfg, results, orders, k);
    assert c in out;
    i :| 0 <= i < |out| && out[i] == c;
    forall j, f | 0 <= j < |out| && j != i && f in out[j].files ensures KeyOf(cfg, f) != k {
      assert out[j] in out;
      var h :| h in orders && out[j] == CandidateFor(cfg, results, orders, h);
      BeforeIsTotal(c, c, c);
      assert out[j] != c && h != k;
      GroupIs(cfg, results, h);
      ReducedIs(cfg, Group(cfg, results, h), orders[h]);
    }
  }

  /** No last-resort candidate precedes a normal one, whatever the scores. */
  lemma LastResortsComeLast(cfg: Config, results: seq<SearchResult>, orders: Orders, out: seq<Candidate>, i: nat,
                            j: nat)
    requires IsRanking(cfg, results, orders, out) && i < j < |out| && out[i].lastResort
    ensures out[j].lastResort && cfg.history(out[j].username) <= LAST_RESORT_THRESHOLD
  {
    hide Enumerates, Keys, Reduced;
    assert Before(out[i], out[j]);
    assert out[j] in out;
  }

  // ---------------------------------------------------------------- determinism

  ghost predicate SomeBlind(cfg: Config, results: seq<SearchResult>) {
    exists k :: k in Keys(cfg, results) && Blind(Group(cfg, results, k))
  }

  lemma SameCandidate(cfg: Config, results: seq<SearchResult>, o: Orders, p: Orders, k: Key)
    requires OrdersFor(cfg, results, o) && OrdersFor(cfg, results, p) && k in o
    requires !Blind(Group(cfg, results, k))
    ensures CandidateFor(cfg, results, o, k) == CandidateFor(cfg, results, p, k)
  {
    hide ExtOf, Blind, CandidateOf;
    var group := Group(cfg, results, k);
    GroupIs(cfg, results, k);
    assert ExtOf(group[0].filename) in Exts(group);
    var best := ForemostExists(group, Exts(group));
    PickIsForemost(group, o[k], best);
    PickIsForemost(group, p[k], best);
  }

  /** With no blind group the result does not depend on any map order. */
  lemma RankIsDetermined(cfg: Config, results: seq<SearchResult>, o: Orders, a: seq<Candidate>, p: Orders,
                         b: seq<Candidate>)
    requires IsRanking(cfg, results, o, a) && IsRanking(cfg, results, p, b)
    requires !SomeBlind(cfg, results)
    ensures a == b
  {
    hide CandidateFor, Enumerates, Sorted, Blind, Keys;
    forall k | k in o ensures CandidateFor(cfg, results, o, k) == CandidateFor(cfg, results, p, k) {
      SameCandidate(cfg, results, o, p, k);
    }
    SortedIsUnique(a, b);
  }

  /** In particular when every kept file has an extension. */
  lemma ExtensionsSuffice(cfg: Config, results: seq<SearchResult>)
    requires forall r | r in results && PassesFloor(cfg, r) :: ExtOf(r.filename) != ""
    ensures !SomeBlind(cfg, results)
  {
    hide PassesFloor, ExtOf, Ahead;
    forall k | k in Keys(cfg, results) ensures !Blind(Group(cfg, results, k)) {
      GroupIs(cfg, results, k);
    }
  }

  lemma {:induction false} ListingExists(cfg: Config, results: seq<SearchResult>, orders: Orders, keys: set<Key>)
    returns (out: seq<Candidate>)
    requires OrdersFor(cfg, results, orders) && keys <= orders.Keys
    ensures Lists(cfg, results, orders, keys, out)
    decreases |keys|
  {
    hide CandidateFor, OrdersFor, InsertSorted;
    if keys == {} {
      out := [];
    } else {
      var k := ElementOf(keys);
      out := ListingExists(cfg, results, orders, keys - {k});
      InsertOne(cfg, results, orders, keys - {k}, k, out);
      assert keys - {k} + {k} == keys;
      out := InsertSorted(CandidateFor(cfg, results, orders, k), out);
    }
  }

  lemma {:induction false} SomeOrders(cfg: Config, results: seq<SearchResult>, keys: set<Key>) returns (orders: Orders)
    requires keys <= Keys(cfg, results)
    ensures orders.Keys == keys
    ensures forall k | k in orders :: Enumerates(orders[k], Exts(Group(cfg, results, k)))
    decreases |keys|
  {
    hide Enumerates, Exts, Keys;
    orders := map[];
    if keys != {} {
      var k := ElementOf(keys);
      orders := SomeOrders(cfg, results, keys - {k});
      var order := EnumerationExists(Exts(Group(cfg, results, k)));
      orders := orders[k := order];
    }
  }

  lemma SameListSamePick(cfg: Config, results: seq<SearchResult>, o: Orders, p: Orders, out: seq<Candidate>, k: Key)
    requires IsRanking(cfg, results, o, out) && IsRanking(cfg, results, p, out) && k in o
    ensures Pick(Group(cfg, results, k), o[k]) == Pick(Group(cfg, results, k), p[k])
  {
    hide Enumerates, Exts, Pick, PassesFloor, ExtOf, Lists, KeyOf;
    assert exists r :: r in results && PassesFloor(cfg, r) && KeyOf(cfg, r) == k;
    var i := OneCandidatePerDirectory(cfg, results, o, out, k);
    var j := OneCandidatePerDirectory(cfg, results, p, out, k);
    var f := out[i].files[0];
    assert f in out[i].files && KeyOf(cfg, f) == k;
    assert i == j;
  }

  /** And with one, two map orders give two different results. */
  lemma BlindRankingVaries(cfg: Config, results: seq<SearchResult>)
    returns (o: Orders, a: seq<Candidate>, p: Orders, b: seq<Candidate>)
    requires SomeBlind(cfg, results)
    ensures IsRanking(cfg, results, o, a) && IsRanking(cfg, results, p, b) && a != b
  {
    hide Enumerates, Exts, Blind, Pick, Keys, Lists;
    var k :| k in Keys(cfg, results) && Blind(Group(cfg, results, k));
    var base := SomeOrders(cfg, results, Keys(cfg, results));
    var one, other := BlindIsAmbiguous(Group(cfg, results, k));
    o, p := base[k := one], base[k := other];
    assert o.Keys == base.Keys == p.Keys;
    a := ListingExists(cfg, results, o, o.Keys);
    b := ListingExists(cfg, results, p, p.Keys);
    if a == b {
      SameListSamePick(cfg, results, o, p, a, k);
    }
  }

  /** Such a folder is ranked in two ways, whatever the weights, the floor and the histories. */
  lemma SomeRankingVaries(w: Weights, minBitrate: int, trackKey: string -> string, history: string -> real)
    returns (cfg: Config, o: Orders, a: seq<Candidate>, p: Orders, b: seq<Candidate>)
    ensures cfg == Config(w, minBitrate, cfg.dirOf, trackKey, history)
    ensures var results := BareAndNamed(minBitrate);
            SomeBlind(cfg, results) && IsRanking(cfg, results, o, a) && IsRanking(cfg, results, p, b) && a != b
  {
    hide Blind, ExtOf, IsRanking;
    cfg := Config(w, minBitrate, _ => "", trackKey, history);
    var results := BareAndNamed(minBitrate);
    assert results[..1] == [results[0]] && [results[0]][..0] == [];
    assert Group(cfg, results[..1], ("u", "")) == [results[0]];
    assert Group(cfg, results, ("u", "")) == results;
    GroupIs(cfg, results, ("u", ""));
    SomeFolderIsBlind(minBitrate);
    o, a, p, b := BlindRankingVaries(cfg, results);
  }
}
