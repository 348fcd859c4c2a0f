/**
 Editing a TOML document in place: only keys whose decoded value differs are written, into the first
 section of their table, and the array of shared folders is replaced wholesale. A document is its
 sections in order, the leading global one with an empty heading. Scanning, escaping and number
 formatting are assumed to round-trip, so a scalar is modelled as the token it decodes to.
*/
module ConfigEdit {
  import opened Basics

  datatype Token = Str(s: string) | Int(i: int) | Float(f: real) | Word(b: bool) | Other(text: string)

  /** A key may be dotted; `block` and `trailer` are the comments above and behind it. */
  datatype Item = Comment(text: string) | KeyValue(name: seq<string>, value: Token, block: string, trailer: string)

  datatype Section = Section(heading: seq<string>, isArray: bool, items: seq<Item>)

  type Path = seq<string>

  // ---------------------------------------------------------------- looking up

  datatype Found = Nothing | Heading | Mapping(item: Item)

  function FirstItem(heading: Path, items: seq<Item>, path: Path): Found {
    if items == [] then Nothing
    else if items[0].KeyValue? && heading + items[0].name == path then Mapping(items[0])
    else FirstItem(heading, items[1..], path)
  }

  function FirstInSection(sec: Section, path: Path): Found {
    if sec.heading == path then Heading else FirstItem(sec.heading, sec.items, path)
  }

  /** doc.First: the first heading or mapping with this full key. */
  function First(doc: seq<Section>, path: Path): Found {
    if doc == [] then Nothing
    else
      var here := FirstInSection(doc[0], path);
      if here.Nothing? then First(doc[1..], path) else here
  }

  // ---------------------------------------------------------------- writing one key

  /** InsertMapping with replacement: the first mapping of that name is replaced, else one is appended. */
  function InsertItem(items: seq<Item>, kv: Item): seq<Item>
    requires kv.KeyValue?
  {
    if items == [] then [kv]
    else if items[0].KeyValue? && items[0].name == kv.name then [kv] + items[1..]
    else [items[0]] + InsertItem(items[1..], kv)
  }

  /** ensureTable, then the insertion. */
  function UpsertIn(doc: seq<Section>, table: Path, kv: Item): seq<Section>
    requires kv.KeyValue?
  {
    if doc == [] then [Section(table, false, [kv])]
    else if doc[0].heading == table then [doc[0].(items := InsertItem(doc[0].items, kv))] + doc[1..]
    else [doc[0]] + UpsertIn(doc[1..], table, kv)
  }

  /** The mapping upsert writes: comments of the entry it finds are kept. */
  function NewItem(doc: seq<Section>, table: Path, key: string, value: Token): (kv: Item)
    ensures kv.KeyValue?
  {
    match First(doc, table + [key])
    case Mapping(KeyValue(_, _, block, trailer)) => KeyValue([key], value, block, trailer)
    case _ => KeyValue([key], value, "", "")
  }

  function Upserted(doc: seq<Section>, table: Path, key: string, value: Token): seq<Section> {
    UpsertIn(doc, table, NewItem(doc, table, key, value))
  }

  // ---------------------------------------------------------------- one setting

  datatype Value = VString(s: string) | VInt(i: int) | VFloat(f: real) | VBool(b: bool) | VDuration(d: int)

  /** A writable key and the requested value; a secret is a string that may be left alone. */
  datatype Spec = Spec(table: Path, key: string, want: Option<Value>)

  /** Parsing and formatting of durations. */
  datatype Durations = Durations(parse: string -> Option<int>, show: int -> string)

  ghost predicate RoundTrips(du: Durations) {
    forall d :: du.parse(du.show(d)) == Some(d)
  }

  function Render(du: Durations, v: Value): Token {
    match v
    case VString(s) => Str(s)
    case VInt(i) => Int(i)
    case VFloat(f) => Float(f)
    case VBool(b) => Word(b)
    case VDuration(d) => Str(du.show(d))
  }

  function IsZero(v: Value): bool {
    match v
    case VString(s) => s == ""
    case VInt(i) => i == 0
    case VFloat(f) => f == 0.0
    case VBool(b) => !b
    case VDuration(d) => d == 0
  }

  /** Decodes a token as the kind of `like`; an integer is accepted where a float is wanted. */
  function Decode(du: Durations, like: Value, tok: Token): Option<Value> {
    match (like, tok)
    case (VString(_), Str(s)) => Some(VString(s))
    case (VInt(_), Int(i)) => Some(VInt(i))
    case (VFloat(_), Float(f)) => Some(VFloat(f))
    case (VFloat(_), Int(i)) => Some(VFloat(i as real))
    case (VBool(_), Word(b)) => Some(VBool(b))
    case (VDuration(_), Str(s)) =>
      (match du.parse(s)
       case Some(d) => Some(VDuration(d))
       case None => None)
    case _ => None
  }

  function PathOf(sp: Spec): Path {
    sp.table + [sp.key]
  }

  /** A setting's current value. */
  function Read(du: Durations, doc: seq<Section>, path: Path, like: Value): Option<Value> {
    match First(doc, path)
    case Mapping(KeyValue(_, value, _, _)) => Decode(du, like, value)
    case _ => None
  }

  /** Nothing to write: the value is left alone, absent and zero, or already there. */
  predicate Satisfied(du: Durations, doc: seq<Section>, sp: Spec) {
    sp.want.None?
    || var cur := Read(du, doc, PathOf(sp), sp.want.value);
       (cur.None? && IsZero(sp.want.value)) || cur == sp.want
  }

  function Applied(du: Durations, doc: seq<Section>, sp: Spec): seq<Section> {
    if Satisfied(du, doc, sp) then doc else Upserted(doc, sp.table, sp.key, Render(du, sp.want.value))
  }

  function AppliedAll(du: Durations, doc: seq<Section>, specs: seq<Spec>): seq<Section> {
    if specs == [] then doc else Applied(du, AppliedAll(du, doc, specs[..|specs| - 1]), specs[|specs| - 1])
  }

  // ---------------------------------------------------------------- what one write does

  /** Some entry of that full key, dotted or a heading, stands before the section the write goes to. */
  predicate Shadowed(doc: seq<Section>, table: Path, path: Path) {
    doc != [] && doc[0].heading != table
    && (FirstInSection(doc[0], path) != Nothing || Shadowed(doc[1..], table, path))
  }

  lemma SimpleName(table: Path, name: Path, key: string)
    ensures table + name == table + [key] <==> name == [key]
  {
    if table + name == table + [key] {
      assert (table + name)[|table|..] == name && (table + [key])[|table|..] == [key];
    }
  }

  lemma {:induction false} InsertedItemIsFound(table: Path, items: seq<Item>, kv: Item, key: string, path: Path)
    requires kv.KeyValue? && kv.name == [key]
    ensures FirstItem(table, InsertItem(items, kv), path)
         == if path == table + [key] then Mapping(kv) else FirstItem(table, items, path)
  {
    if items != [] {
      InsertedItemIsFound(table, items[1..], kv, key, path);
      if items[0].KeyValue? {
        SimpleName(table, items[0].name, key);
      }
      var after := InsertItem(items, kv);
      if items[0].KeyValue? && items[0].name == kv.name {
        assert after[1..] == items[1..];
      } else {
        assert after[1..] == InsertItem(items[1..], kv);
      }
    } else {
      assert [kv][1..] == items;
    }
  }

  /**
   The write is what the next look-up finds unless it is shadowed; no other key's mapping is touched.
   (A new section may add a heading, which is no mapping.)
  */
  lemma {:induction false} UpsertFound(doc: seq<Section>, table: Path, kv: Item, key: string, path: Path)
    requires kv.KeyValue? && kv.name == [key]
    ensures var after := First(UpsertIn(doc, table, kv), path);
            && (path == table + [key] ==> after == if Shadowed(doc, table, path) then First(doc, path) else Mapping(kv))
            && (path != table + [key] ==>
                  after == First(doc, path) || (First(doc, path) == Nothing && after == Heading))
  {
    var z := UpsertIn(doc, table, kv);
    assert table != table + [key] by { assert |table| != |table + [key]|; }
    if doc == [] {
      InsertedItemIsFound(table, [], kv, key, path);
      assert z[1..] == [];
    } else if doc[0].heading == table {
      InsertedItemIsFound(table, doc[0].items, kv, key, path);
      assert z[1..] == doc[1..];
    } else {
      UpsertFound(doc[1..], table, kv, key, path);
      assert z[1..] == UpsertIn(doc[1..], table, kv);
    }
  }

  lemma DecodeRendered(du: Durations, v: Value)
    requires RoundTrips(du)
    ensures Decode(du, v, Render(du, v)) == Some(v)
  {
  }

  /**
   After a setting is applied it reads back as requested exactly if the write, where one is needed, is
   not shadowed; a value left alone or absent and zero is not written at all.
  */
  lemma AppliedReadsBackIff(du: Durations, doc: seq<Section>, sp: Spec)
    requires RoundTrips(du) && sp.want.Some?
    ensures var z := Applied(du, doc, sp);
            && (Satisfied(du, doc, sp) ==> z == doc)
            && (!Satisfied(du, doc, sp) ==>
                  (Read(du, z, PathOf(sp), sp.want.value) == sp.want <==> !Shadowed(doc, sp.table, PathOf(sp))))
  {
    hide Decode, Render, Shadowed, IsZero;
    if !Satisfied(du, doc, sp) {
      var kv := NewItem(doc, sp.table, sp.key, Render(du, sp.want.value));
      UpsertFound(doc, sp.table, kv, sp.key, PathOf(sp));
      DecodeRendered(du, sp.want.value);
    }
  }

  /** A dotted key in the parent table does shadow: the write lands in a new section behind it. */
  lemma DottedKeyShadows(du: Durations) returns (doc: seq<Section>, sp: Spec)
    requires RoundTrips(du)
    ensures sp.want.Some? && Read(du, Applied(du, doc, sp), PathOf(sp), sp.want.value) != sp.want
  {
    var dotted := KeyValue(["gluetun", "control_url"], Str("old"), "", "");
    doc := [Section(["soulseek"], false, [dotted])];
    sp := Spec(["soulseek", "gluetun"], "control_url", Some(VString("new")));
    assert PathOf(sp) == ["soulseek", "gluetun", "control_url"] == ["soulseek"] + dotted.name;
    assert |doc[0].heading| == 1;
    assert First(doc, PathOf(sp)) == Mapping(dotted);
    assert "old" != "new" by { assert "old"[0] != "new"[0]; }
    AppliedReadsBackIff(du, doc, sp);
  }

  /** The comments around a rewritten key stay with it. */
  lemma CommentsStay(du: Durations, doc: seq<Section>, sp: Spec)
    requires !Satisfied(du, doc, sp) && !Shadowed(doc, sp.table, PathOf(sp)) && First(doc, PathOf(sp)).Mapping?
    requires First(doc, PathOf(sp)).item.KeyValue?
    ensures var before, after := First(doc, PathOf(sp)).item, First(Applied(du, doc, sp), PathOf(sp));
            after == Mapping(KeyValue([sp.key], Render(du, sp.want.value), before.block, before.trailer))
  {
    hide Decode, Render, Shadowed;
    var kv := NewItem(doc, sp.table, sp.key, Render(du, sp.want.value));
    UpsertFound(doc, sp.table, kv, sp.key, PathOf(sp));
  }

  /** No other key changes. */
  lemma OthersKept(du: Durations, doc: seq<Section>, sp: Spec, path: Path)
    requires path != PathOf(sp)
    ensures MappingAt(Applied(du, doc, sp), path) == MappingAt(doc, path)
  {
    hide Decode, Render;
    if !Satisfied(du, doc, sp) {
      UpsertFound(doc, sp.table, NewItem(doc, sp.table, sp.key, Render(du, sp.want.value)), sp.key, path);
    }
  }

  function MappingAt(doc: seq<Section>, path: Path): Option<Item> {
    match First(doc, path)
    case Mapping(item) => Some(item)
    case _ => None
  }

  /** The section a write goes to already holds that very mapping. */
  predicate Holds(doc: seq<Section>, table: Path, kv: Item)
    requires kv.KeyValue?
  {
    doc != [] &&
    if doc[0].heading == table then InsertItem(doc[0].items, kv) == doc[0].items
    else Holds(doc[1..], table, kv)
  }

  lemma {:induction false} InsertTwice(items: seq<Item>, kv: Item)
    requires kv.KeyValue?
    ensures InsertItem(InsertItem(items, kv), kv) == InsertItem(items, kv)
  {
    if items != [] && !(items[0].KeyValue? && items[0].name == kv.name) {
      InsertTwice(items[1..], kv);
      assert InsertItem(items, kv)[1..] == InsertItem(items[1..], kv);
    }
  }

  lemma {:induction false} UpsertHolds(doc: seq<Section>, table: Path, kv: Item)
    requires kv.KeyValue?
    ensures Holds(UpsertIn(doc, table, kv), table, kv)
    ensures Holds(doc, table, kv) ==> UpsertIn(doc, table, kv) == doc
  {
    if doc == [] {
    } else if doc[0].heading == table {
      InsertTwice(doc[0].items, kv);
      assert doc == [doc[0]] + doc[1..];
    } else {
      UpsertHolds(doc[1..], table, kv);
      assert UpsertIn(doc, table, kv)[1..] == UpsertIn(doc[1..], table, kv);
      assert doc == [doc[0]] + doc[1..];
    }
  }

  lemma {:induction false} InsertKeepsInserted(items: seq<Item>, kv: Item, other: Item)
    requires kv.KeyValue? && other.KeyValue? && kv.name != other.name
    requires InsertItem(items, kv) == items
    ensures InsertItem(InsertItem(items, other), kv) == InsertItem(items, other)
  {
    if items == [] {
    } else if items[0].KeyValue? && items[0].name == kv.name {
      assert InsertItem(items, other)[0] == items[0] && items[0] == kv;
      assert InsertItem(items, other) == [kv] + InsertItem(items, other)[1..];
    } else {
      assert InsertItem(items[1..], kv) == items[1..] by {
        assert InsertItem(items, kv)[1..] == InsertItem(items[1..], kv);
      }
      InsertKeepsInserted(items[1..], kv, other);
      if !(items[0].KeyValue? && items[0].name == other.name) {
        assert InsertItem(items, other)[1..] == InsertItem(items[1..], other);
      } else {
        assert InsertItem(items, other)[1..] == items[1..];
      }
    }
  }

  lemma {:induction false} OthersHold(doc: seq<Section>, table: Path, kv: Item, table': Path, kv': Item)
    requires kv.KeyValue? && kv'.KeyValue? && (table != table' || kv.name != kv'.name)
    requires Holds(doc, table, kv)
    ensures Holds(UpsertIn(doc, table', kv'), table, kv)
  {
    if doc[0].heading == table && doc[0].heading == table' {
      InsertKeepsInserted(doc[0].items, kv, kv');
    } else if doc[0].heading == table' {
      assert UpsertIn(doc, table', kv')[1..] == doc[1..];
    } else if doc[0].heading != table {
      OthersHold(doc[1..], table, kv, table', kv');
      assert UpsertIn(doc, table', kv')[1..] == UpsertIn(doc[1..], table', kv');
    }
  }

  /** Applying the setting again would change nothing. */
  predicate Settled(du: Durations, doc: seq<Section>, sp: Spec) {
    Satisfied(du, doc, sp) || Holds(doc, sp.table, NewItem(doc, sp.table, sp.key, Render(du, sp.want.value)))
  }

  lemma SettledMeansFixed(du: Durations, doc: seq<Section>, sp: Spec)
    requires Settled(du, doc, sp)
    ensures Applied(du, doc, sp) == doc
  {
    hide Holds, UpsertIn, Decode;
    if !Satisfied(du, doc, sp) {
      UpsertHolds(doc, sp.table, NewItem(doc, sp.table, sp.key, Render(du, sp.want.value)));
    }
  }

  lemma AppliedIsSettled(du: Durations, doc: seq<Section>, sp: Spec)
    requires RoundTrips(du)
    ensures Settled(du, Applied(du, doc, sp), sp)
  {
    hide Render, Decode, Holds, UpsertIn, Shadowed, IsZero;
    if !Satisfied(du, doc, sp) {
      var value := Render(du, sp.want.value);
      var kv := NewItem(doc, sp.table, sp.key, value);
      UpsertHolds(doc, sp.table, kv);
      UpsertFound(doc, sp.table, kv, sp.key, PathOf(sp));
    }
  }

  lemma StaysSettled(du: Durations, doc: seq<Section>, sp: Spec, other: Spec)
    requires PathOf(sp) != PathOf(other) && Settled(du, doc, sp)
    ensures Settled(du, Applied(du, doc, other), sp)
  {
    hide Render, Decode, Holds, UpsertIn, IsZero;
    OthersKept(du, doc, other, PathOf(sp));
    if !Satisfied(du, doc, other) && !Satisfied(du, doc, sp) {
      var kv := NewItem(doc, sp.table, sp.key, Render(du, sp.want.value));
      if sp.table == other.table {
        assert sp.key == other.key ==> PathOf(sp) == PathOf(other);
        assert [sp.key][0] == sp.key && [other.key][0] == other.key;
      }
      OthersHold(doc, sp.table, kv, other.table, NewItem(doc, other.table, other.key, Render(du, other.want.value)));
    }
  }

  // ---------------------------------------------------------------- the field loop

  ghost predicate DistinctKeys(specs: seq<Spec>) {
    forall i, j | 0 <= i < j < |specs| :: PathOf(specs[i]) != PathOf(specs[j])
  }

  lemma {:induction false} AllSettled(du: Durations, doc: seq<Section>, specs: seq<Spec>)
    requires RoundTrips(du) && DistinctKeys(specs)
    ensures forall i | 0 <= i < |specs| :: Settled(du, AppliedAll(du, doc, specs), specs[i])
  {
    hide Settled, Applied;
    if specs != [] {
      var init, last := specs[..|specs| - 1], specs[|specs| - 1];
      AllSettled(du, doc, init);
      var before := AppliedAll(du, doc, init);
      AppliedIsSettled(du, before, last);
      forall i | 0 <= i < |init| ensures Settled(du, Applied(du, before, last), specs[i]) {
        assert Settled(du, before, init[i]);
        StaysSettled(du, before, specs[i], last);
      }
    }
  }

  lemma {:induction false} SettledLoopIsIdle(du: Durations, doc: seq<Section>, specs: seq<Spec>)
    requires forall i | 0 <= i < |specs| :: Settled(du, doc, specs[i])
    ensures AppliedAll(du, doc, specs) == doc
  {
    hide Settled, Applied;
    if specs != [] {
      SettledLoopIsIdle(du, doc, specs[..|specs| - 1]);
      SettledMeansFixed(du, doc, specs[|specs| - 1]);
    }
  }

  /** A second run over the same requests changes nothing, shadowed or not. */
  lemma LoopIsIdempotent(du: Durations, doc: seq<Section>, specs: seq<Spec>)
    requires RoundTrips(du) && DistinctKeys(specs)
    ensures AppliedAll(du, AppliedAll(du, doc, specs), specs) == AppliedAll(du, doc, specs)
  {
    AllSettled(du, doc, specs);
    SettledLoopIsIdle(du, AppliedAll(du, doc, specs), specs);
  }

  /** Every key outside the list keeps its mapping, comments and all. */
  lemma {:induction false} LoopKeepsOthers(du: Durations, doc: seq<Section>, specs: seq<Spec>, path: Path)
    requires forall sp | sp in specs :: PathOf(sp) != path
    ensures MappingAt(AppliedAll(du, doc, specs), path) == MappingAt(doc, path)
  {
    hide Applied, MappingAt;
    if specs != [] {
      var init, last := specs[..|specs| - 1], specs[|specs| - 1];
      assert last in specs && forall sp | sp in init :: sp in specs;
      LoopKeepsOthers(du, doc, init, path);
      OthersKept(du, AppliedAll(du, doc, init), last, path);
    }
  }

  lemma {:induction false} ShadowStays(doc: seq<Section>, table: Path, kv: Item, key: string, sp: Spec)
    requires kv.KeyValue? && kv.name == [key] && table + [key] != PathOf(sp) && table != PathOf(sp)
    ensures Shadowed(UpsertIn(doc, table, kv), sp.table, PathOf(sp)) == Shadowed(doc, sp.table, PathOf(sp))
  {
    var z := UpsertIn(doc, table, kv);
    if doc == [] {
      InsertedItemIsFound(table, [], kv, key, PathOf(sp));
      assert z[1..] == [];
    } else if doc[0].heading == table {
      InsertedItemIsFound(table, doc[0].items, kv, key, PathOf(sp));
      assert z[1..] == doc[1..];
    } else {
      ShadowStays(doc[1..], table, kv, key, sp);
      assert z[1..] == UpsertIn(doc[1..], table, kv);
    }
  }

  /** No requested key is the name of a requested table. */
  ghost predicate KeysAreNoTables(specs: seq<Spec>) {
    forall sp, tq | sp in specs && tq in specs :: sp.table != PathOf(tq)
  }

  lemma {:induction false} LoopKeepsShadows(du: Durations, doc: seq<Section>, specs: seq<Spec>, sp: Spec)
    requires forall other | other in specs :: PathOf(other) != PathOf(sp) && other.table != PathOf(sp)
    ensures Shadowed(AppliedAll(du, doc, specs), sp.table, PathOf(sp)) == Shadowed(doc, sp.table, PathOf(sp))
  {
    hide Shadowed, UpsertIn, Render, Decode;
    if specs != [] {
      var init, last := specs[..|specs| - 1], specs[|specs| - 1];
      assert last in specs && forall s | s in init :: s in specs;
      LoopKeepsShadows(du, doc, init, sp);
      var before := AppliedAll(du, doc, init);
      if !Satisfied(du, before, last) {
        ShadowStays(before, last.table, NewItem(before, last.table, last.key, Render(du, last.want.value)), last.key,
                    sp);
      }
    }
  }

  lemma {:induction false} LoopSplits(du: Durations, doc: seq<Section>, specs: seq<Spec>, i: nat)
    requires i <= |specs|
    ensures AppliedAll(du, doc, specs) == AppliedAll(du, AppliedAll(du, doc, specs[..i]), specs[i..])
    decreases |specs| - i
  {
    hide Applied;
    if i == |specs| {
      assert specs[..i] == specs;
    } else {
      var init, last := specs[..|specs| - 1], specs[|specs| - 1];
      LoopSplits(du, doc, init, i);
      assert init[..i] == specs[..i] && specs[i..][..|specs| - i - 1] == init[i..];
    }
  }

  /** What a lookup decodes depends on the mapping found alone. */
  lemma ReadIsOfMapping(du: Durations, doc: seq<Section>, other: seq<Section>, path: Path, like: Value)
    requires MappingAt(doc, path) == MappingAt(other, path)
    ensures Read(du, doc, path, like) == Read(du, other, path, like)
  {
    hide Decode;
  }

  /**
   After the loop every requested value reads back, except a key that is shadowed in the document, and
   a zero asked of a key that has no value, which still has none.
  */
  lemma LoopReadsBack(du: Durations, doc: seq<Section>, specs: seq<Spec>, i: nat)
    requires RoundTrips(du) && DistinctKeys(specs) && KeysAreNoTables(specs)
    requires i < |specs| && specs[i].want.Some?
    ensures var (sp, z) := (specs[i], AppliedAll(du, doc, specs));
            var (path, want) := (PathOf(sp), sp.want.value);
            var (was, now) := (Read(du, doc, path, want), Read(du, z, path, want));
            if was.None? && IsZero(want) then now.None?
            else now == Some(want) <==> was == Some(want) || !Shadowed(doc, sp.table, path)
  {
    hide Applied, Shadowed, Read, Decode, MappingAt, IsZero;
    var sp := specs[i];
    var before, after := AppliedAll(du, doc, specs[..i]), AppliedAll(du, doc, specs[..i + 1]);
    assert specs[..i + 1][..i] == specs[..i] && specs[..i + 1][i] == sp;
    assert forall o | o in specs[..i] :: o in specs;
    assert sp in specs;
    LoopKeepsOthers(du, doc, specs[..i], PathOf(sp));
    LoopKeepsShadows(du, doc, specs[..i], sp);
    AppliedReadsBackIff(du, before, sp);
    LoopSplits(du, doc, specs, i + 1);
    LoopKeepsOthers(du, after, specs[i + 1..], PathOf(sp));
    ReadIsOfMapping(du, doc, before, PathOf(sp), sp.want.value);
    ReadIsOfMapping(du, after, AppliedAll(du, doc, specs), PathOf(sp), sp.want.value);
  }

  /**
   So a key without a value gets the requested one exactly if the request is not "", 0, 0.0, false or
   no time at all, and the key is not shadowed.
  */
  lemma AbsentKeyIsWrittenIff(du: Durations, doc: seq<Section>, specs: seq<Spec>, i: nat)
    requires RoundTrips(du) && DistinctKeys(specs) && KeysAreNoTables(specs)
    requires i < |specs| && specs[i].want.Some? && Read(du, doc, PathOf(specs[i]), specs[i].want.value).None?
    ensures var (sp, z) := (specs[i], AppliedAll(du, doc, specs));
            var want := sp.want.value;
            Read(du, z, PathOf(sp), want) == Some(want) <==>
            && want != VString("") && want != VInt(0) && want != VFloat(0.0) && want != VBool(false)
            && want != VDuration(0) && !Shadowed(doc, sp.table, PathOf(sp))
  {
    hide Read, Shadowed, AppliedAll;
    LoopReadsBack(du, doc, specs, i);
  }

  /** Where a number with a fraction is wanted, an integer of that value is left as it is. */
  lemma IntegerServesAsFloat(du: Durations, doc: seq<Section>, sp: Spec, kv: Item)
    requires First(doc, PathOf(sp)) == Mapping(kv) && kv.KeyValue? && kv.value.Int?
    requires sp.want.Some? && sp.want.value.VFloat?
    ensures kv.value.i as real == sp.want.value.f ==> Applied(du, doc, sp) == doc
    ensures kv.value.i as real != sp.want.value.f && !Shadowed(doc, sp.table, PathOf(sp)) ==>
              First(Applied(du, doc, sp), PathOf(sp))
              == Mapping(KeyValue([sp.key], Float(sp.want.value.f), kv.block, kv.trailer))
  {
    hide Shadowed;
    if !Satisfied(du, doc, sp) && !Shadowed(doc, sp.table, PathOf(sp)) {
      CommentsStay(du, doc, sp);
    }
  }

  // ---------------------------------------------------------------- shared folders

  datatype Folder = Folder(name: string, path: string)

  const FOLDERS: Path := ["soulseek", "shared_folders"]

  predicate IsFolder(sec: Section) {
    sec.isArray && sec.heading == FOLDERS
  }

  /** The last string mapping of that simple name, if any. */
  function StringAt(items: seq<Item>, key: string): string {
    if items == [] then ""
    else
      var last := items[|items| - 1];
      if last.KeyValue? && last.name == [key] && last.value.Str? then last.value.s
      else StringAt(items[..|items| - 1], key)
  }

  function CurrentFolders(doc: seq<Section>): seq<Folder> {
    if doc == [] then []
    else
      var last := doc[|doc| - 1];
      CurrentFolders(doc[..|doc| - 1])
      + if IsFolder(last) then [Folder(StringAt(last.items, "name"), StringAt(last.items, "path"))] else []
  }

  function WithoutFolders(doc: seq<Section>): seq<Section> {
    if doc == [] then []
    else WithoutFolders(doc[..|doc| - 1]) + if IsFolder(doc[|doc| - 1]) then [] else [doc[|doc| - 1]]
  }

  function FolderSection(f: Folder): Section {
    Section(FOLDERS, true, [KeyValue(["name"], Str(f.name), "", ""), KeyValue(["path"], Str(f.path), "", "")])
  }

  function FolderSections(fs: seq<Folder>): seq<Section> {
    seq(|fs|, i requires 0 <= i < |fs| => FolderSection(fs[i]))
  }

  function FoldersApplied(doc: seq<Section>, fs: seq<Folder>): seq<Section> {
    if CurrentFolders(doc) == fs then doc else WithoutFolders(doc) + FolderSections(fs)
  }

  lemma {:induction false} NoFoldersLeft(doc: seq<Section>)
    ensures CurrentFolders(WithoutFolders(doc)) == [] && WithoutFolders(WithoutFolders(doc)) == WithoutFolders(doc)
  {
    hide IsFolder;
    if doc != [] {
      NoFoldersLeft(doc[..|doc| - 1]);
      var init, last := WithoutFolders(doc[..|doc| - 1]), doc[|doc| - 1];
      if IsFolder(last) {
        assert WithoutFolders(doc) == init;
      } else {
        assert (init + [last])[..|init|] == init;
      }
    }
  }

  /** Exactly the tables of the array soulseek.shared_folders are taken out. */
  lemma {:induction false} OnlyFoldersGo(doc: seq<Section>, sec: Section)
    ensures sec in WithoutFolders(doc) <==>
            sec in doc && !(sec.isArray && sec.heading == ["soulseek", "shared_folders"])
  {
    if doc != [] {
      var init, last := doc[..|doc| - 1], doc[|doc| - 1];
      OnlyFoldersGo(init, sec);
      assert doc == init + [last];
    }
  }

  lemma FolderReads(f: Folder)
    ensures IsFolder(FolderSection(f))
    ensures Folder(StringAt(FolderSection(f).items, "name"), StringAt(FolderSection(f).items, "path")) == f
  {
    var items := FolderSection(f).items;
    assert items[..1] == [items[0]];
    assert "name"[0] != "path"[0] && ["name"][0] != ["path"][0];
  }

  lemma {:induction false} FoldersAppended(doc: seq<Section>, fs: seq<Folder>)
    requires CurrentFolders(doc) == []
    ensures CurrentFolders(doc + FolderSections(fs)) == fs
    ensures WithoutFolders(doc + FolderSections(fs)) == WithoutFolders(doc)
  {
    hide IsFolder, StringAt, FolderSection;
    var z := doc + FolderSections(fs);
    if fs == [] {
      assert z == doc;
    } else {
      var init, last := fs[..|fs| - 1], fs[|fs| - 1];
      FoldersAppended(doc, init);
      assert z[..|z| - 1] == doc + FolderSections(init) && z[|z| - 1] == FolderSection(last);
      FolderReads(last);
      assert fs == init + [last];
    }
  }

  /** The requested folders read back exactly, in order; every other section stays, in order. */
  lemma FoldersReadBack(doc: seq<Section>, fs: seq<Folder>)
    ensures CurrentFolders(FoldersApplied(doc, fs)) == fs
    ensures WithoutFolders(FoldersApplied(doc, fs)) == WithoutFolders(doc)
    ensures CurrentFolders(doc) == fs ==> FoldersApplied(doc, fs) == doc
  {
    NoFoldersLeft(doc);
    FoldersAppended(WithoutFolders(doc), fs);
  }

  // ---------------------------------------------------------------- the document, edited in place

  class Document {
    var sections: seq<Section>

    constructor (sections: seq<Section>)
      ensures this.sections == sections
    {
      this.sections := sections;
    }

    /** The index of the first section of a table, appended if there is none. */
    method EnsureTable(table: Path) returns (at: nat)
      modifies this
      ensures at < |sections| && sections[at].heading == table
      ensures forall i | 0 <= i < at :: sections[i].heading != table
      ensures sections == old(sections)
              || (at == |old(sections)| && sections == old(sections) + [Section(table, false, [])])
    {
      for i := 0 to |sections|
        invariant sections == old(sections)
        invariant forall k | 0 <= k < i :: sections[k].heading != table
      {
        if sections[i].heading == table {
          return i;
        }
      }
      at := |sections|;
      sections := sections + [Section(table, false, [])];
    }

    method Upsert(table: Path, key: string, value: Token)
      modifies this
      ensures sections == Upserted(old(sections), table, key, value)
    {
      var kv := NewItem(sections, table, key, value);
      ghost var was := sections;
      var at := EnsureTable(table);
      var sec := sections[at];
      UpsertAt(was, sections, table, kv, at);
      sections := sections[at := sec.(items := InsertItem(sec.items, kv))];
    }

    method Apply(du: Durations, sp: Spec)
      modifies this
      ensures sections == Applied(du, old(sections), sp)
    {
      if sp.want.None? {
        return;
      }
      var want := sp.want.value;
      var cur := Read(du, sections, PathOf(sp), want);
      if cur.None? && IsZero(want) {
        return;
      }
      if cur == Some(want) {
        return;
      }
      Upsert(sp.table, sp.key, Render(du, want));
    }

    method ApplyFolders(fs: seq<Folder>)
      modifies this
      ensures sections == WithoutFolders(old(sections)) + FolderSections(fs)
    {
      var kept: seq<Section> := [];
      for i := 0 to |sections|
        invariant sections == old(sections) && kept == WithoutFolders(sections[..i])
      {
        assert sections[..i + 1][..i] == sections[..i];
        if !IsFolder(sections[i]) {
          kept := kept + [sections[i]];
        }
      }
      assert sections[..|sections|] == sections;
      sections := kept;
      for i := 0 to |fs|
        invariant sections == kept + FolderSections(fs[..i])
      {
        assert FolderSections(fs[..i + 1]) == FolderSections(fs[..i]) + [FolderSection(fs[i])];
        sections := sections + [FolderSection(fs[i])];
      }
      assert fs[..|fs|] == fs;
    }
  }

  lemma {:induction false} UpsertAt(was: seq<Section>, now: seq<Section>, table: Path, kv: Item, at: nat)
    requires kv.KeyValue? && at < |now| && now[at].heading == table
    requires forall i | 0 <= i < at :: now[i].heading != table
    requires now == was || (at == |was| && now == was + [Section(table, false, [])])
    ensures now[at := now[at].(items := InsertItem(now[at].items, kv))] == UpsertIn(was, table, kv)
    decreases at
  {
    var after := now[at].(items := InsertItem(now[at].items, kv));
    if was == [] {
      assert now[at := after] == [Section(table, false, [kv])];
    } else if at == 0 {
      assert now[0 := after] == [after] + now[1..];
    } else {
      assert now[0] == was[0];
      UpsertAt(was[1..], now[1..], table, kv, at - 1);
      assert now[at := after] == [now[0]] + now[1..][at - 1 := after];
    }
  }

  /** The requested settings: the field list, and the shared folders. */
  datatype Settings = Settings(specs: seq<Spec>, folders: seq<Folder>)

  function SettingsApplied(du: Durations, doc: seq<Section>, s: Settings): seq<Section> {
    var z := AppliedAll(du, doc, s.specs);
    if CurrentFolders(doc) == s.folders then z else WithoutFolders(z) + FolderSections(s.folders)
  }

  class ConfigFile {
    var sections: seq<Section>

    constructor (sections: seq<Section>)
      ensures this.sections == sections
    {
      this.sections := sections;
    }

    /**
     Reads the file, edits the document, and replaces the file in one step if the result validates
     and the directory takes the rename; otherwise nothing is written.
    */
    method ApplySettings(du: Durations, s: Settings, valid: seq<Section> -> bool, renames: bool) returns (ok: bool)
      modifies this
      ensures ok <==> renames && valid(SettingsApplied(du, old(sections), s))
      ensures sections == if ok then SettingsApplied(du, old(sections), s) else old(sections)
    {
      var doc := new Document(sections);
      var currentFolders := CurrentFolders(doc.sections);
      for i := 0 to |s.specs|
        invariant doc.sections == AppliedAll(du, sections, s.specs[..i])
        invariant fresh(doc) && sections == old(sections)
      {
        assert s.specs[..i + 1][..i] == s.specs[..i];
        doc.Apply(du, s.specs[i]);
      }
      assert s.specs[..|s.specs|] == s.specs;
      if currentFolders != s.folders {
        doc.ApplyFolders(s.folders);
      }
      if !valid(doc.sections) {
        return false;
      }
      ok := renames;
      if ok {
        sections := doc.sections;
      }
    }
  }

  // ---------------------------------------------------------------- fields and folders together

  /** No requested key lies in the array of shared folders. */
  ghost predicate FoldersApart(specs: seq<Spec>) {
    forall sp | sp in specs :: sp.table != FOLDERS && !(FOLDERS <= PathOf(sp))
  }

  lemma {:induction false} UpsertKeepsFolders(doc: seq<Section>, table: Path, kv: Item)
    requires kv.KeyValue? && table != FOLDERS
    ensures CurrentFolders(UpsertIn(doc, table, kv)) == CurrentFolders(doc)
  {
    hide StringAt;
    if doc == [] {
      var z := UpsertIn(doc, table, kv);
      assert z[..0] == [];
    } else if doc[0].heading == table {
      CurrentFoldersCons(doc[0], doc[1..]);
      CurrentFoldersCons(UpsertIn(doc, table, kv)[0], doc[1..]);
      assert doc == [doc[0]] + doc[1..];
    } else {
      UpsertKeepsFolders(doc[1..], table, kv);
      CurrentFoldersCons(doc[0], doc[1..]);
      CurrentFoldersCons(doc[0], UpsertIn(doc[1..], table, kv));
      assert doc == [doc[0]] + doc[1..];
    }
  }

  lemma {:induction false} CurrentFoldersCons(sec: Section, doc: seq<Section>)
    ensures CurrentFolders([sec] + doc)
         == (if IsFolder(sec) then [Folder(StringAt(sec.items, "name"), StringAt(sec.items, "path"))] else [])
            + CurrentFolders(doc)
  {
    hide IsFolder, StringAt;
    var z := [sec] + doc;
    if doc == [] {
      assert z[..0] == [];
    } else {
      assert z[..|z| - 1] == [sec] + doc[..|doc| - 1];
      CurrentFoldersCons(sec, doc[..|doc| - 1]);
    }
  }

  lemma {:induction false} LoopKeepsFolders(du: Durations, doc: seq<Section>, specs: seq<Spec>)
    requires FoldersApart(specs)
    ensures CurrentFolders(AppliedAll(du, doc, specs)) == CurrentFolders(doc)
  {
    hide CurrentFolders, UpsertIn, Render, Decode;
    if specs != [] {
      var init, last := specs[..|specs| - 1], specs[|specs| - 1];
      assert last in specs && forall s | s in init :: s in specs;
      LoopKeepsFolders(du, doc, init);
      var before := AppliedAll(du, doc, init);
      if !Satisfied(du, before, last) {
        UpsertKeepsFolders(before, last.table, NewItem(before, last.table, last.key, Render(du, last.want.value)));
      }
    }
  }

  lemma {:induction false} FirstSnoc(doc: seq<Section>, sec: Section, path: Path)
    ensures First(doc + [sec], path)
         == if First(doc, path).Nothing? then FirstInSection(sec, path) else First(doc, path)
  {
    hide FirstInSection;
    var z := doc + [sec];
    if doc == [] {
      assert z[1..] == [];
    } else {
      assert z[1..] == doc[1..] + [sec];
      FirstSnoc(doc[1..], sec, path);
    }
  }

  lemma {:induction false} FolderHasOnlyItsOwn(items: seq<Item>, path: Path)
    requires !(FOLDERS <= path)
    ensures FirstItem(FOLDERS, items, path) == Nothing
  {
    if items != [] {
      FolderHasOnlyItsOwn(items[1..], path);
      if items[0].KeyValue? {
        assert FOLDERS <= FOLDERS + items[0].name;
      }
    }
  }

  lemma {:induction false} FoldersDoNotMatter(doc: seq<Section>, path: Path)
    requires !(FOLDERS <= path)
    ensures First(WithoutFolders(doc), path) == First(doc, path)
  {
    hide First, FirstInSection;
    if doc != [] {
      var init, last := doc[..|doc| - 1], doc[|doc| - 1];
      FoldersDoNotMatter(init, path);
      assert doc == init + [last];
      FirstSnoc(init, last, path);
      FirstSnoc(WithoutFolders(init), last, path);
      if IsFolder(last) {
        FolderHasOnlyItsOwn(last.items, path);
        assert FirstInSection(last, path) == Nothing by { NotInFolder(last, path); }
        assert WithoutFolders(doc) == WithoutFolders(init);
      }
    } else {
      assert WithoutFolders(doc) == doc;
    }
  }

  lemma NotInFolder(sec: Section, path: Path)
    requires IsFolder(sec) && !(FOLDERS <= path)
    ensures FirstInSection(sec, path) == Nothing
  {
    FolderHasOnlyItsOwn(sec.items, path);
  }

  /** Replacing the folders changes no other key. */
  lemma {:induction false} FolderSectionsDoNotMatter(doc: seq<Section>, fs: seq<Folder>, path: Path)
    requires !(FOLDERS <= path)
    ensures First(doc + FolderSections(fs), path) == First(doc, path)
  {
    hide First, FirstInSection;
    if fs == [] {
      assert doc + FolderSections(fs) == doc;
    } else {
      var init, last := fs[..|fs| - 1], fs[|fs| - 1];
      FolderSectionsDoNotMatter(doc, init, path);
      assert doc + FolderSections(fs) == doc + FolderSections(init) + [FolderSection(last)];
      FirstSnoc(doc + FolderSections(init), FolderSection(last), path);
      NotInFolder(FolderSection(last), path);
    }
  }

  /**
   The whole edit: every key reads as the field loop left it, the folders read back exactly and in
   order, and the other sections are those of the field loop, in order.
  */
  lemma SettingsReadBack(du: Durations, doc: seq<Section>, s: Settings, path: Path)
    requires FoldersApart(s.specs)
    ensures var (z, fields) := (SettingsApplied(du, doc, s), AppliedAll(du, doc, s.specs));
            && CurrentFolders(z) == s.folders
            && WithoutFolders(z) == WithoutFolders(fields)
            && (!(FOLDERS <= path) ==> First(z, path) == First(fields, path))
  {
    hide First, AppliedAll;
    var fields := AppliedAll(du, doc, s.specs);
    LoopKeepsFolders(du, doc, s.specs);
    FoldersReadBack(fields, s.folders);
    if !(FOLDERS <= path) {
      FoldersDoNotMatter(fields, path);
      FolderSectionsDoNotMatter(WithoutFolders(fields), s.folders, path);
    }
  }

  lemma {:induction false} HoldsSnoc(doc: seq<Section>, sec: Section, table: Path, kv: Item)
    requires kv.KeyValue? && sec.heading != table
    ensures Holds(doc + [sec], table, kv) == Holds(doc, table, kv)
  {
    var z := doc + [sec];
    if doc == [] {
      assert z[1..] == [];
    } else {
      assert z[1..] == doc[1..] + [sec];
      HoldsSnoc(doc[1..], sec, table, kv);
    }
  }

  lemma {:induction false} HoldsAppended(doc: seq<Section>, sec: Section, table: Path, kv: Item)
    requires kv.KeyValue? && Holds(doc, table, kv)
    ensures Holds(doc + [sec], table, kv)
  {
    var z := doc + [sec];
    assert z[1..] == doc[1..] + [sec];
    if doc[0].heading != table {
      HoldsAppended(doc[1..], sec, table, kv);
    }
  }

  lemma {:induction false} HoldsWithoutFolders(doc: seq<Section>, table: Path, kv: Item)
    requires kv.KeyValue? && table != FOLDERS
    ensures Holds(WithoutFolders(doc), table, kv) <==> Holds(doc, table, kv)
  {
    hide Holds;
    if doc == [] {
      assert WithoutFolders(doc) == doc;
    } else {
      var init, last := doc[..|doc| - 1], doc[|doc| - 1];
      assert doc == init + [last];
      HoldsWithoutFolders(init, table, kv);
      if last.heading != table {
        HoldsSnoc(init, last, table, kv);
        HoldsSnoc(WithoutFolders(init), last, table, kv);
        if IsFolder(last) {
          assert WithoutFolders(doc) == WithoutFolders(init);
        }
      } else {
        HoldsLast(init, last, table, kv);
        HoldsLast(WithoutFolders(init), last, table, kv);
        HeadingWithoutFolders(init, table);
      }
    }
  }

  predicate HasHeading(doc: seq<Section>, table: Path) {
    doc != [] && (doc[0].heading == table || HasHeading(doc[1..], table))
  }

  lemma {:induction false} HoldsLast(doc: seq<Section>, sec: Section, table: Path, kv: Item)
    requires kv.KeyValue? && sec.heading == table
    ensures Holds(doc + [sec], table, kv)
         == if HasHeading(doc, table) then Holds(doc, table, kv) else InsertItem(sec.items, kv) == sec.items
  {
    var z := doc + [sec];
    if doc == [] {
      assert z[1..] == [];
    } else {
      assert z[1..] == doc[1..] + [sec];
      HoldsLast(doc[1..], sec, table, kv);
    }
  }

  lemma {:induction false} HasHeadingSnoc(doc: seq<Section>, sec: Section, table: Path)
    ensures HasHeading(doc + [sec], table) <==> HasHeading(doc, table) || sec.heading == table
  {
    var z := doc + [sec];
    if doc == [] {
      assert z[1..] == [];
    } else {
      assert z[1..] == doc[1..] + [sec];
      HasHeadingSnoc(doc[1..], sec, table);
    }
  }

  lemma {:induction false} HeadingWithoutFolders(doc: seq<Section>, table: Path)
    requires table != FOLDERS
    ensures HasHeading(WithoutFolders(doc), table) <==> HasHeading(doc, table)
  {
    hide HasHeading;
    if doc == [] {
      assert WithoutFolders(doc) == doc;
    } else {
      var init, last := doc[..|doc| - 1], doc[|doc| - 1];
      assert doc == init + [last];
      HeadingWithoutFolders(init, table);
      HasHeadingSnoc(init, last, table);
      HasHeadingSnoc(WithoutFolders(init), last, table);
      if IsFolder(last) {
        assert WithoutFolders(doc) == WithoutFolders(init);
      }
    }
  }

  lemma {:induction false} HoldsWithFolders(doc: seq<Section>, fs: seq<Folder>, table: Path, kv: Item)
    requires kv.KeyValue? && table != FOLDERS && Holds(doc, table, kv)
    ensures Holds(doc + FolderSections(fs), table, kv)
  {
    hide Holds;
    if fs == [] {
      assert doc + FolderSections(fs) == doc;
    } else {
      var init, last := fs[..|fs| - 1], fs[|fs| - 1];
      HoldsWithFolders(doc, init, table, kv);
      assert doc + FolderSections(fs) == doc + FolderSections(init) + [FolderSection(last)];
      HoldsAppended(doc + FolderSections(init), FolderSection(last), table, kv);
    }
  }

  /** Applying the same settings a second time changes nothing at all. */
  lemma SettingsAreIdempotent(du: Durations, doc: seq<Section>, s: Settings)
    requires RoundTrips(du) && DistinctKeys(s.specs) && FoldersApart(s.specs)
    ensures SettingsApplied(du, SettingsApplied(du, doc, s), s) == SettingsApplied(du, doc, s)
  {
    hide First, AppliedAll, Settled, Holds;
    var fields, z := AppliedAll(du, doc, s.specs), SettingsApplied(du, doc, s);
    AllSettled(du, doc, s.specs);
    forall i | 0 <= i < |s.specs| ensures Settled(du, z, s.specs[i]) {
      var sp := s.specs[i];
      assert sp in s.specs;
      SettingsReadBack(du, doc, s, PathOf(sp));
      SettledWithFolders(du, fields, s.folders, sp);
    }
    SettledLoopIsIdle(du, z, s.specs);
    SettingsReadBack(du, doc, s, []);
  }

  lemma SettledWithFolders(du: Durations, fields: seq<Section>, fs: seq<Folder>, sp: Spec)
    requires Settled(du, fields, sp) && sp.table != FOLDERS && !(FOLDERS <= PathOf(sp))
    ensures Settled(du, WithoutFolders(fields) + FolderSections(fs), sp)
  {
    hide First, Holds, Decode, Render, WithoutFolders, FolderSections;
    FoldersDoNotMatter(fields, PathOf(sp));
    FolderSectionsDoNotMatter(WithoutFolders(fields), fs, PathOf(sp));
    if !Satisfied(du, fields, sp) {
      var kv := NewItem(fields, sp.table, sp.key, Render(du, sp.want.value));
      HoldsWithoutFolders(fields, sp.table, kv);
      HoldsWithFolders(WithoutFolders(fields), fs, sp.table, kv);
    }
  }
}
