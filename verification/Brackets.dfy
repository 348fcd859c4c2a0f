/**
 Stripping bracketed groups to a fixpoint, and the query normalization built on it. One pass removes
 every group that holds no bracket, with the white space before it.
*/
module Brackets {
  import opened Basics

  predicate Opening(c: char) {
    c == '(' || c == '['
  }

  predicate Closing(c: char) {
    c == ')' || c == ']'
  }

  /** `\s` of the regular expressions. */
  predicate Blank(c: char) {
    c == ' ' || c == '\t' || c == '\n' || c == '\U{C}' || c == '\r'
  }

  // ---------------------------------------------------------------- one pass

  /** How far the body of a group, and its closing bracket, reach; 0 if they do not. */
  function BodyLength(s: string): nat {
    if s == [] || Opening(s[0]) then 0
    else if Closing(s[0]) then 1
    else
      var n := BodyLength(s[1..]);
      if n == 0 then 0 else n + 1
  }

  /** The length of the match `\s*[(\[][^()\[\]]*[)\]]` at the start of `s`, 0 if there is none. */
  function MatchLength(s: string): nat {
    if s == [] then 0
    else if Blank(s[0]) || Opening(s[0]) then
      var n := if Blank(s[0]) then MatchLength(s[1..]) else BodyLength(s[1..]);
      if n == 0 then 0 else n + 1
    else 0
  }

  lemma {:induction false} BodyFits(s: string)
    ensures BodyLength(s) <= |s|
  {
    if s != [] {
      BodyFits(s[1..]);
    }
  }

  lemma {:induction false} MatchFits(s: string)
    ensures MatchLength(s) <= |s|
  {
    if s != [] {
      MatchFits(s[1..]);
      BodyFits(s[1..]);
    }
  }

  /** ReplaceAllString: leftmost matches, one after the other, dropped. */
  function Pass(s: string): (r: string)
    ensures |r| <= |s|
    decreases |s|
  {
    if s == [] then []
    else
      MatchFits(s);
      var n := MatchLength(s);
      if n > 0 then Pass(s[n..]) else [s[0]] + Pass(s[1..])
  }

  lemma {:induction false} PassShrinks(s: string)
    ensures Pass(s) != s ==> |Pass(s)| < |s|
    decreases |s|
  {
    if s != [] {
      MatchFits(s);
      if MatchLength(s) == 0 {
        PassShrinks(s[1..]);
        assert s == [s[0]] + s[1..];
      }
    }
  }

  // ---------------------------------------------------------------- what is meant: a matching parser

  function Trimmed(s: string): string {
    if s != [] && Blank(s[|s| - 1]) then Trimmed(s[..|s| - 1]) else s
  }

  /**
   Text read so far: what stays, and the segments begun by opening brackets not closed yet. A closing
   bracket of either kind closes the innermost open one and drops its segment with the blanks before.
  */
  datatype Read = Read(kept: string, open: seq<string>)

  function Append(r: Read, c: char): Read {
    if r.open == [] then r.(kept := r.kept + [c])
    else r.(open := r.open[|r.open| - 1 := r.open[|r.open| - 1] + [c]])
  }

  function DropTop(r: Read): Read
    requires r.open != []
  {
    var n := |r.open| - 1;
    if n == 0 then Read(Trimmed(r.kept), [])
    else Read(r.kept, r.open[..n - 1] + [Trimmed(r.open[n - 1])])
  }

  function ReadChar(r: Read, c: char): Read {
    if Opening(c) then r.(open := r.open + [[c]])
    else if Closing(c) && r.open != [] then DropTop(r)
    else Append(r, c)
  }

  function ReadAll(r: Read, s: string): Read
    decreases |s|
  {
    if s == [] then r else ReadAll(ReadChar(r, s[0]), s[1..])
  }

  function Joined(segments: seq<string>): string {
    if segments == [] then [] else segments[0] + Joined(segments[1..])
  }

  /** Everything outside matched groups, in one left-to-right reading. */
  function Outside(s: string): string {
    var r := ReadAll(Read([], []), s);
    r.kept + Joined(r.open)
  }

  function Top(r: Read): string {
    if r.open == [] then r.kept else r.open[|r.open| - 1]
  }

  function WithTop(r: Read, t: string): Read {
    if r.open == [] then r.(kept := t) else r.(open := r.open[|r.open| - 1 := t])
  }

  predicate Tight(t: string) {
    Trimmed(t) == t
  }

  lemma {:induction false} TrimIsTight(t: string)
    ensures Tight(Trimmed(t))
  {
    if t != [] && Blank(t[|t| - 1]) {
      TrimIsTight(t[..|t| - 1]);
    }
  }

  /** Reading a matched group, from inside it, only trims. */
  lemma {:induction false} BodyIsDropped(r: Read, s: string)
    requires r.open != [] && BodyLength(s) > 0
    ensures BodyLength(s) <= |s| && ReadAll(r, s) == ReadAll(DropTop(r), s[BodyLength(s)..])
    decreases |s|
  {
    BodyFits(s);
    if !Closing(s[0]) {
      BodyFits(s[1..]);
      BodyIsDropped(Append(r, s[0]), s[1..]);
      assert s[1..][BodyLength(s[1..])..] == s[BodyLength(s)..];
    }
  }

  lemma {:induction false} MatchIsDropped(r: Read, s: string)
    requires MatchLength(s) > 0
    ensures MatchLength(s) <= |s|
    ensures ReadAll(r, s) == ReadAll(WithTop(r, Trimmed(Top(r))), s[MatchLength(s)..])
    decreases |s|
  {
    MatchFits(s);
    if Blank(s[0]) {
      MatchFits(s[1..]);
      MatchIsDropped(Append(r, s[0]), s[1..]);
      assert s[1..][MatchLength(s[1..])..] == s[MatchLength(s)..];
      assert (Top(r) + [s[0]])[..|Top(r)|] == Top(r);
      assert WithTop(Append(r, s[0]), Trimmed(Top(r))) == WithTop(r, Trimmed(Top(r)));
    } else {
      BodyFits(s[1..]);
      var inner := r.(open := r.open + [[s[0]]]);
      BodyIsDropped(inner, s[1..]);
      assert s[1..][BodyLength(s[1..])..] == s[MatchLength(s)..];
      assert DropTop(inner) == WithTop(r, Trimmed(Top(r)));
    }
  }

  lemma WithOwnTop(r: Read)
    ensures WithTop(r, Top(r)) == r
  {
  }

  /** A pass changes nothing of what lies outside the groups. */
  lemma {:induction false} PassKeepsReading(r: Read, s: string)
    requires MatchLength(s) > 0 ==> Tight(Top(r))
    ensures ReadAll(r, Pass(s)) == ReadAll(r, s)
    decreases |s|
  {
    if s != [] {
      var n := MatchLength(s);
      if n > 0 {
        MatchIsDropped(r, s);
        WithOwnTop(r);
        PassKeepsReading(r, s[n..]);
      } else {
        var next := ReadChar(r, s[0]);
        if !Blank(s[0]) {
          TopAfter(r, s[0]);
        }
        PassKeepsReading(next, s[1..]);
        assert Pass(s)[1..] == Pass(s[1..]);
      }
    }
  }

  lemma TopAfter(r: Read, c: char)
    requires !Blank(c)
    ensures Tight(Top(ReadChar(r, c)))
  {
    TrimIsTight(Top(r));
    if r.open != [] {
      TrimIsTight(if |r.open| == 1 then r.kept else r.open[|r.open| - 2]);
    }
  }

  // ---------------------------------------------------------------- the fixpoint

  /** No closing bracket after an opening one. */
  predicate Unpaired(s: string) {
    forall i, j | 0 <= i < j < |s| :: !(Opening(s[i]) && Closing(s[j]))
  }

  lemma {:induction false} BodyFound(s: string, j: nat)
    requires j < |s| && Closing(s[j])
    ensures BodyLength(s) > 0 || exists i :: 0 <= i < j && Opening(s[i])
  {
    if j > 0 && !Opening(s[0]) && !Closing(s[0]) {
      BodyFound(s[1..], j - 1);
      if exists i :: 0 <= i < j - 1 && Opening(s[1..][i]) {
        var i :| 0 <= i < j - 1 && Opening(s[1..][i]);
        assert Opening(s[i + 1]);
      }
    }
  }

  predicate NoneCloses(s: string) {
    forall j | 0 <= j < |s| :: !Closing(s[j])
  }

  lemma NoBodyNoneCloses(s: string)
    requires Unpaired(s) && BodyLength(s) == 0
    ensures NoneCloses(s)
  {
    hide BodyLength;
    forall j | 0 <= j < |s| ensures !Closing(s[j]) {
      if Closing(s[j]) {
        BodyFound(s, j);
      }
    }
  }

  lemma UnpairedCons(c: char, s: string)
    ensures Unpaired([c] + s) <==> Unpaired(s) && (Opening(c) ==> NoneCloses(s))
    ensures NoneCloses([c] + s) <==> !Closing(c) && NoneCloses(s)
  {
    hide Opening, Closing;
    var t := [c] + s;
    assert t[0] == c && forall j | 0 <= j < |s| :: t[j + 1] == s[j];
    assert forall j | 0 < j < |t| :: t[j] == s[j - 1];
  }

  /** What a pass leaves alone holds no pair. */
  lemma {:induction false} FixpointIsUnpaired(s: string)
    requires Pass(s) == s
    ensures Unpaired(s)
    decreases |s|
  {
    if s != [] {
      MatchFits(s);
      assert s == [s[0]] + s[1..] && Pass(s[1..]) == s[1..];
      FixpointIsUnpaired(s[1..]);
      UnpairedCons(s[0], s[1..]);
      if Opening(s[0]) {
        NoBodyNoneCloses(s[1..]);
      }
    }
  }

  /** Text without a pair lies outside every group. */
  lemma {:induction false} UnpairedStays(r: Read, s: string)
    requires Unpaired(s) && (r.open != [] ==> NoneCloses(s))
    ensures var z := ReadAll(r, s); z.kept + Joined(z.open) == r.kept + Joined(r.open) + s
    decreases |s|
  {
    if s != [] {
      var next := ReadChar(r, s[0]);
      assert s == [s[0]] + s[1..];
      UnpairedCons(s[0], s[1..]);
      hide Unpaired, NoneCloses;
      if Opening(s[0]) {
        JoinedSnoc(r.open, [s[0]]);
      } else if r.open != [] {
        var n := |r.open| - 1;
        assert r.open == r.open[..n] + [r.open[n]];
        assert next.open == r.open[..n] + [r.open[n] + [s[0]]];
        JoinedSnoc(r.open[..n], r.open[n]);
        JoinedSnoc(r.open[..n], r.open[n] + [s[0]]);
      }
      UnpairedStays(next, s[1..]);
    }
  }

  lemma {:induction false} JoinedSnoc(segments: seq<string>, t: string)
    ensures Joined(segments + [t]) == Joined(segments) + t
  {
    if segments == [] {
      assert segments + [t] == [t] && [t][1..] == [];
    } else {
      assert (segments + [t])[1..] == segments[1..] + [t];
      JoinedSnoc(segments[1..], t);
    }
  }

  lemma UnpairedIsOutside(s: string)
    requires Unpaired(s)
    ensures Outside(s) == s
  {
    UnpairedStays(Read([], []), s);
  }

  /**
   The loop to the fixpoint ends, and computes what the matching parser reads in one go: everything
   outside the matched groups. Its result holds no pair.
  */
  method StripBracketedGroups(text: string) returns (s: string)
    ensures s == Outside(text)
    ensures Pass(s) == s && forall i, j | 0 <= i < j < |s| :: !(s[i] in "([" && s[j] in ")]")
  {
    s := text;
    while true
      invariant Outside(s) == Outside(text)
      decreases |s|
    {
      var next := Pass(s);
      PassKeepsReading(Read([], []), s);
      if next == s {
        break;
      }
      PassShrinks(s);
      s := next;
    }
    FixpointIsUnpaired(s);
    UnpairedIsOutside(s);
    BracketsAre(s);
  }

  lemma BracketsAre(s: string)
    ensures Unpaired(s) <==> forall i, j | 0 <= i < j < |s| :: !(s[i] in "([" && s[j] in ")]")
    ensures Bracketless(s) <==> forall d | d in s :: d !in "()[]"
  {
    forall i | 0 <= i < |s|
      ensures (Opening(s[i]) <==> s[i] in "([") && (Closing(s[i]) <==> s[i] in ")]") && s[i] in s
    {}
  }

  // ---------------------------------------------------------------- one group

  lemma {:induction false} ReadAppend(r: Read, s: string, t: string)
    ensures ReadAll(r, s + t) == ReadAll(ReadAll(r, s), t)
    decreases |s|
  {
    if s == [] {
      assert s + t == t;
    } else {
      assert (s + t)[1..] == s[1..] + t;
      ReadAppend(ReadChar(r, s[0]), s[1..], t);
    }
  }

  /** Reading a text without the blanks at its end is reading it and trimming. */
  lemma {:induction false} TrimmedReads(p: string)
    ensures var r := ReadAll(Read([], []), p);
            ReadAll(Read([], []), Trimmed(p)) == WithTop(r, Trimmed(Top(r)))
  {
    var start := Read([], []);
    if p != [] {
      var init, c := p[..|p| - 1], p[|p| - 1];
      var r := ReadAll(start, init);
      ReadSnoc(start, init, c);
      assert p == init + [c];
      if Blank(c) {
        TrimmedReads(init);
        assert (Top(r) + [c])[..|Top(r)|] == Top(r);
        assert WithTop(Append(r, c), Trimmed(Top(r))) == WithTop(r, Trimmed(Top(r)));
      } else {
        TopAfter(r, c);
        WithOwnTop(ReadChar(r, c));
      }
    }
  }

  lemma {:induction false} BodyIs(x: string, c: char, q: string)
    requires (forall d | d in x :: d !in "()[]") && c in ")]"
    ensures BodyLength(x + [c] + q) == |x| + 1
  {
    var s := x + [c] + q;
    if x == [] {
      assert s[0] == c && Closing(c);
    } else {
      assert x[0] in x;
      assert s[1..] == x[1..] + [c] + q && s[0] == x[0];
      BodyIs(x[1..], c, q);
    }
  }

  /**
   A group that holds no bracket, of whatever two brackets, vanishes with the blanks before it. With
   `UnpairedIsOutside` this says what is left of any text.
  */
  lemma GroupVanishes(p: string, o: char, x: string, c: char, q: string)
    requires o in "([" && c in ")]" && forall d | d in x :: d !in "()[]"
    ensures Outside(p + [o] + x + [c] + q) == Outside(Trimmed(p) + q)
  {
    var start, tail := Read([], []), [o] + x + [c] + q;
    var r := ReadAll(start, p);
    assert p + [o] + x + [c] + q == p + tail;
    ReadAppend(start, p, tail);
    BodyIs(x, c, q);
    assert tail[1..] == x + [c] + q && MatchLength(tail) == |x| + 2 && tail[|x| + 2..] == q;
    MatchIsDropped(r, tail);
    TrimmedReads(p);
    ReadAppend(start, Trimmed(p), q);
  }

  /** Bracket depth after `s`, or -1 once a closing bracket has had none to close. */
  function Depth(s: string): int {
    if s == [] then 0
    else
      var d, c := Depth(s[..|s| - 1]), s[|s| - 1];
      if d < 0 then -1 else if Opening(c) then d + 1 else if Closing(c) then d - 1 else d
  }

  predicate Bracketless(s: string) {
    forall i | 0 <= i < |s| :: !Opening(s[i]) && !Closing(s[i])
  }

  lemma {:induction false} TrimKeepsBracketless(s: string)
    requires Bracketless(s)
    ensures Bracketless(Trimmed(s))
  {
    if s != [] && Blank(s[|s| - 1]) {
      TrimKeepsBracketless(s[..|s| - 1]);
    }
  }

  lemma {:induction false} ReadSnoc(r: Read, s: string, c: char)
    ensures ReadAll(r, s + [c]) == ReadChar(ReadAll(r, s), c)
    decreases |s|
  {
    if s == [] {
      assert s + [c] == [c] && [c][1..] == [];
    } else {
      assert (s + [c])[1..] == s[1..] + [c];
      ReadSnoc(ReadChar(r, s[0]), s[1..], c);
    }
  }

  lemma {:induction false} DepthIsOpen(s: string)
    requires Depth(s) >= 0
    ensures var r := ReadAll(Read([], []), s);
            |r.open| == Depth(s) && Bracketless(r.kept)
  {
    if s != [] {
      var init, c := s[..|s| - 1], s[|s| - 1];
      assert s == init + [c];
      DepthIsOpen(init);
      ReadSnoc(Read([], []), init, c);
      TrimKeepsBracketless(ReadAll(Read([], []), init).kept);
    }
  }

  /** Balanced brackets, of whatever kinds, all disappear. */
  lemma BalancedLosesAll(s: string)
    requires Depth(s) == 0
    ensures forall d | d in Outside(s) :: d !in "()[]"
  {
    BracketsAre(Outside(s));
    DepthIsOpen(s);
    var r := ReadAll(Read([], []), s);
    assert r.open == [] && r.kept + Joined(r.open) == r.kept;
  }

  // ---------------------------------------------------------------- query normalization

  function AmpersandsOut(s: string): string {
    if s == [] then [] else (if s[0] == '&' then "and" else [s[0]]) + AmpersandsOut(s[1..])
  }

  predicate Punctuation(c: char) {
    c in "'\":.,!?()[]"
  }

  function PunctuationOut(s: string): string {
    if s == [] then [] else (if Punctuation(s[0]) then [] else [s[0]]) + PunctuationOut(s[1..])
  }

  lemma {:induction false} AmpersandsSplit(a: string, b: string)
    ensures AmpersandsOut(a + b) == AmpersandsOut(a) + AmpersandsOut(b)
  {
    if a == [] {
      assert a + b == b;
    } else {
      assert (a + b)[1..] == a[1..] + b;
      AmpersandsSplit(a[1..], b);
    }
  }

  lemma {:induction false} PunctuationSplit(a: string, b: string)
    ensures PunctuationOut(a + b) == PunctuationOut(a) + PunctuationOut(b)
  {
    hide Punctuation;
    if a == [] {
      assert a + b == b;
    } else {
      assert (a + b)[1..] == a[1..] + b;
      PunctuationSplit(a[1..], b);
    }
  }

  /** Both rewrite character by character; `RewritesAre` says what becomes of each. */
  lemma RewritesSplit(a: string, b: string)
    ensures AmpersandsOut(a + b) == AmpersandsOut(a) + AmpersandsOut(b)
    ensures PunctuationOut(a + b) == PunctuationOut(a) + PunctuationOut(b)
  {
    AmpersandsSplit(a, b);
    PunctuationSplit(a, b);
  }

  lemma RewritesAre(c: char)
    ensures AmpersandsOut([c]) == if c == '&' then "and" else [c]
    ensures PunctuationOut([c]) == if c in "'\":.,!?()[]" then [] else [c]
  {
    assert [c][1..] == [];
    assert AmpersandsOut([]) == [] && PunctuationOut([]) == [];
  }

  /** Every run of white space becomes one space. */
  function Collapsed(s: string): string {
    if s == [] then []
    else if !Blank(s[0]) then [s[0]] + Collapsed(s[1..])
    else if |s| > 1 && Blank(s[1]) then Collapsed(s[1..])
    else [' '] + Collapsed(s[1..])
  }

  function TrimmedLeft(s: string): string {
    if s != [] && IsSpace(s[0]) then TrimmedLeft(s[1..]) else s
  }

  function TrimmedRight(s: string): string {
    if s != [] && IsSpace(s[|s| - 1]) then TrimmedRight(s[..|s| - 1]) else s
  }

  function Normalized(query: string): string {
    TrimmedRight(TrimmedLeft(Collapsed(PunctuationOut(AmpersandsOut(Outside(query))))))
  }

  method NormalizeQuery(query: string) returns (q: string)
    ensures q == Normalized(query)
  {
    q := StripBracketedGroups(query);
    q := AmpersandsOut(q);
    q := PunctuationOut(q);
    q := Collapsed(q);
    q := TrimmedRight(TrimmedLeft(q));
  }

  predicate Sober(s: string) {
    forall i | 0 <= i < |s| :: s[i] != '&' && !Punctuation(s[i])
  }

  /** What the rewriting steps leave: nothing for any of them to do. */
  predicate Clean(s: string) {
    && Sober(s)
    && (forall i | 0 <= i < |s| :: Blank(s[i]) ==> s[i] == ' ')
    && (forall i | 0 <= i < |s| - 1 :: !(Blank(s[i]) && Blank(s[i + 1])))
  }

  lemma {:induction false} AmpersandsGone(s: string)
    ensures forall i | 0 <= i < |AmpersandsOut(s)| :: AmpersandsOut(s)[i] != '&'
  {
    if s != [] {
      AmpersandsGone(s[1..]);
    }
  }

  lemma {:induction false} PunctuationGone(s: string)
    requires forall i | 0 <= i < |s| :: s[i] != '&'
    ensures Sober(PunctuationOut(s))
  {
    hide Punctuation;
    if s != [] {
      PunctuationGone(s[1..]);
    }
  }

  lemma {:induction false} CollapseCleans(s: string)
    requires Sober(s)
    ensures Clean(Collapsed(s))
    ensures s != [] ==> Collapsed(s) != [] && Blank(Collapsed(s)[0]) == Blank(s[0])
  {
    assert !Punctuation(' ');
    hide Punctuation;
    if s != [] {
      assert forall i | 0 <= i < |s| - 1 :: s[1..][i] == s[i + 1];
      CollapseCleans(s[1..]);
    }
  }

  lemma {:induction false} TrimLeftCleans(s: string)
    requires Clean(s)
    ensures Clean(TrimmedLeft(s)) && (TrimmedLeft(s) == [] || !IsSpace(TrimmedLeft(s)[0]))
  {
    hide Punctuation, IsSpace, Blank;
    if s != [] && IsSpace(s[0]) {
      TrimLeftCleans(s[1..]);
    }
  }

  lemma {:induction false} TrimRightCleans(s: string)
    requires Clean(s) && (s == [] || !IsSpace(s[0]))
    ensures var t := TrimmedRight(s); Clean(t) && (t == [] || (!IsSpace(t[0]) && !IsSpace(t[|t| - 1])))
  {
    hide Punctuation, IsSpace, Blank;
    if s != [] && IsSpace(s[|s| - 1]) {
      TrimRightCleans(s[..|s| - 1]);
    }
  }

  lemma {:induction false} CleanIsFixed(s: string)
    requires Clean(s)
    ensures AmpersandsOut(s) == s && PunctuationOut(s) == s && Collapsed(s) == s
  {
    hide Punctuation;
    if s != [] {
      CleanIsFixed(s[1..]);
      assert s == [s[0]] + s[1..];
      assert |s| > 1 ==> s[1..][0] == s[1];
    }
  }

  /** Normalizing twice is normalizing once. */
  lemma NormalizeIsIdempotent(query: string)
    ensures Normalized(Normalized(query)) == Normalized(query)
  {
    hide IsSpace, Blank;
    var a := AmpersandsOut(Outside(query));
    AmpersandsGone(Outside(query));
    PunctuationGone(a);
    CollapseCleans(PunctuationOut(a));
    TrimLeftCleans(Collapsed(PunctuationOut(a)));
    TrimRightCleans(TrimmedLeft(Collapsed(PunctuationOut(a))));
    var q := Normalized(query);
    SoberIsBracketless(q);
    UnpairedIsOutside(q);
    CleanIsFixed(q);
  }

  lemma SoberIsBracketless(s: string)
    requires Sober(s)
    ensures Bracketless(s)
  {
    forall i | 0 <= i < |s| ensures !Opening(s[i]) && !Closing(s[i]) {
      assert !Punctuation(s[i]);
    }
  }
}
