/** Layer name patterns: their parser and the greedy matcher. */
module Pattern {
  import opened Strings
  import opened Wrappers

  datatype Segment = Literal(value: string) | Placeholder(value: string)

  // ---------- The parser ----------

  /** One complaint for each segment that reuses the placeholder name `v`. */
  function Dupes(segs: seq<Segment>, v: string): seq<string> {
    if segs == [] then []
    else (if segs[0] == Placeholder(v) then ["dupe: " + v] else []) + Dupes(segs[1..], v)
  }

  function PrependLayerSegment(existing: seq<Segment>, seg: Segment, errs: seq<string>): (seq<Segment>, seq<string>) {
    if seg.Literal? then ([seg] + existing, errs)
    else
      var adjacent := if existing != [] && existing[0].Placeholder? then ["placeholders without separators"] else [];
      ([seg] + existing, errs + adjacent + Dupes(existing, seg.value))
  }

  /** The segments of a pattern and the complaints about it; a pattern is accepted when there are none. */
  function ParsePattern(pattern: string): (seq<Segment>, seq<string>)
    decreases |pattern|
  {
    if pattern == "" then ([], [])
    else
      var firstOpening, firstClosing := Index(pattern, "{"), Index(pattern, "}");
      if firstOpening > 0 then
        var next := ParsePattern(pattern[firstOpening..]);
        PrependLayerSegment(next.0, Literal(pattern[..firstOpening]), next.1)
      else if firstOpening == 0 then
        if firstClosing > 0 then
          var next := ParsePattern(pattern[firstClosing + 1..]);
          PrependLayerSegment(next.0, Placeholder(pattern[1..firstClosing]), next.1)
        else ([Placeholder(pattern[1..])], ["missing }"])
      else ([Literal(pattern)], [])
  }

  predicate Accepted(pattern: string) {
    ParsePattern(pattern).1 == []
  }

  function PrintSegment(seg: Segment): string {
    match seg
    case Literal(v) => v
    case Placeholder(v) => "{" + v + "}"
  }

  function Print(segs: seq<Segment>): string {
    if segs == [] then "" else PrintSegment(segs[0]) + Print(segs[1..])
  }

  predicate SegmentOk(seg: Segment) {
    match seg
    case Literal(v) => v != "" && '{' !in v
    case Placeholder(v) => '}' !in v
  }

  /** Literals and placeholders alternate, no name comes twice, and no part could be read otherwise. */
  predicate WellFormed(segs: seq<Segment>) {
    segs != [] ==>
      && SegmentOk(segs[0])
      && (|segs| > 1 ==> segs[0].Literal? != segs[1].Literal?)
      && (segs[0].Placeholder? ==> segs[0] !in segs[1..])
      && WellFormed(segs[1..])
  }

  lemma {:induction false} DupesMeans(segs: seq<Segment>, v: string)
    ensures Dupes(segs, v) == [] <==> Placeholder(v) !in segs
  {
    if segs != [] {
      DupesMeans(segs[1..], v);
    }
  }

  // The parser, one segment at a time.

  lemma ParsePlain(v: string)
    requires v != "" && '{' !in v
    ensures ParsePattern(v) == ([Literal(v)], [])
  {
    IndexAbsent(v, '{');
  }

  lemma ParseLiteral(v: string, rest: string)
    requires v != "" && '{' !in v && rest != "" && rest[0] == '{'
    ensures ParsePattern(v + rest) == ([Literal(v)] + ParsePattern(rest).0, ParsePattern(rest).1)
  {
    assert v + rest == v + "{" + rest[1..];
    IndexOfChar(v, '{', rest[1..]);
    assert (v + rest)[..|v|] == v && (v + rest)[|v|..] == rest;
  }

  lemma ParsePlaceholder(v: string, rest: string)
    requires '}' !in v
    ensures ParsePattern("{" + v + "}" + rest)
            == PrependLayerSegment(ParsePattern(rest).0, Placeholder(v), ParsePattern(rest).1)
  {
    var p := "{" + v + "}" + rest;
    assert IsAt(p, "{", 0);
    IndexOfChar("{" + v, '}', rest);
    assert p[1..|v| + 1] == v && p[|v| + 2..] == rest;
  }

  lemma FirstIsPlaceholder(pattern: string)
    requires pattern != "" && pattern[0] == '{'
    ensures ParsePattern(pattern).0 != [] && ParsePattern(pattern).0[0].Placeholder?
  {
    assert IsAt(pattern, "{", 0);
  }

  /** A segment that can stand before a well-formed list keeps it well formed. */
  lemma WellFormedCons(seg: Segment, rest: seq<Segment>)
    requires SegmentOk(seg) && WellFormed(rest)
    requires rest != [] ==> seg.Literal? != rest[0].Literal?
    requires seg.Placeholder? ==> seg !in rest
    ensures WellFormed([seg] + rest) && Print([seg] + rest) == PrintSegment(seg) + Print(rest)
  {
    assert ([seg] + rest)[1..] == rest;
  }

  /** The parser accepted `pattern`, its segments are well formed and print it. */
  predicate Inverted(pattern: string) {
    WellFormed(ParsePattern(pattern).0) && Print(ParsePattern(pattern).0) == pattern
  }

  lemma InvertPlain(v: string)
    requires v != "" && '{' !in v
    ensures Inverted(v)
  {
    ParsePlain(v);
    WellFormedCons(Literal(v), []);
    assert v + "" == v;
  }

  lemma InvertLiteral(v: string, rest: string)
    requires v != "" && '{' !in v && rest != "" && rest[0] == '{'
    requires Inverted(rest)
    ensures Inverted(v + rest)
  {
    ParseLiteral(v, rest);
    FirstIsPlaceholder(rest);
    WellFormedCons(Literal(v), ParsePattern(rest).0);
  }

  lemma InvertPlaceholder(v: string, rest: string)
    requires '}' !in v && Accepted("{" + v + "}" + rest)
    requires Inverted(rest)
    ensures Inverted("{" + v + "}" + rest)
  {
    var segs := ParsePattern(rest).0;
    ParsePlaceholder(v, rest);
    DupesMeans(segs, v);
    WellFormedCons(Placeholder(v), segs);
  }

  lemma Closed(pattern: string)
    requires pattern != "" && pattern[0] == '{' && Accepted(pattern)
    ensures Index(pattern, "}") > 0
  {
    assert IsAt(pattern, "{", 0);
  }

  lemma CutPlaceholder(p: string, closing: nat)
    requires 0 < closing < |p| && p[0] == '{' && p[closing] == '}'
    ensures p == "{" + p[1..closing] + "}" + p[closing + 1..]
  {
  }

  /** What the parser accepts is well formed, and printing it gives the pattern back. */
  lemma {:induction false} ParseThenPrint(pattern: string)
    requires Accepted(pattern)
    ensures WellFormed(ParsePattern(pattern).0)
    ensures Print(ParsePattern(pattern).0) == pattern
    decreases |pattern|
  {
    if pattern != "" {
      var opening := Index(pattern, "{");
      IndexPresent(pattern, '{');
      if opening < 0 {
        InvertPlain(pattern);
      } else if opening > 0 {
        var v, rest := pattern[..opening], pattern[opening..];
        assert v + rest == pattern;
        ParseLiteral(v, rest);
        ParseThenPrint(rest);
        InvertLiteral(v, rest);
      } else {
        Closed(pattern);
        var closing := Index(pattern, "}");
        IndexPresent(pattern, '}');
        var v, rest := pattern[1..closing], pattern[closing + 1..];
        CutPlaceholder(pattern, closing);
        assert '}' !in v by {
          assert v == pattern[..closing][1..];
        }
        ParsePlaceholder(v, rest);
        ParseThenPrint(rest);
        InvertPlaceholder(v, rest);
      }
    }
  }

  /** Parsing what was printed gives the segments back, for every well-formed list. */
  lemma {:induction false} PrintThenParse(segs: seq<Segment>)
    requires WellFormed(segs)
    ensures ParsePattern(Print(segs)) == (segs, [])
  {
    if segs != [] {
      var seg, rest := segs[0], segs[1..];
      PrintThenParse(rest);
      assert [seg] + rest == segs;
      if seg.Placeholder? {
        DupesMeans(rest, seg.value);
        ParsePlaceholder(seg.value, Print(rest));
      } else if rest == [] {
        ParsePlain(seg.value);
        assert [seg] == segs && Print(rest) == "" && seg.value + "" == seg.value;
      } else {
        ParseLiteral(seg.value, Print(rest));
      }
    }
  }

  /** So the accepted patterns are exactly the printouts of well-formed lists. */
  lemma AcceptedIffPrinted(pattern: string)
    ensures Accepted(pattern) <==> exists segs :: WellFormed(segs) && Print(segs) == pattern
  {
    if Accepted(pattern) {
      ParseThenPrint(pattern);
    }
    if segs :| WellFormed(segs) && Print(segs) == pattern {
      PrintThenParse(segs);
    }
  }

  // ---------- The matcher ----------

  /** The matcher on what is left of the name, with `last` the placeholder that awaits its value. */
  function Greedy(segs: seq<Segment>, str: string, last: Option<string>, m: map<string, string>)
    : (bool, map<string, string>)
    decreases |segs|
  {
    if segs == [] then
      if last.Some? then (true, m[last.value := str]) else (str == "", m)
    else
      match segs[0]
      case Placeholder(v) => Greedy(segs[1..], str, Some(v), m)
      case Literal(v) =>
        var k := Index(str, v);
        if k < 0 then (false, m)
        else if last.Some? then Greedy(segs[1..], str[k + |v|..], None, m[last.value := str[..k]])
        else if k > 0 then (false, m)
        else Greedy(segs[1..], str[|v|..], None, m)
  }

  method Match(segs: seq<Segment>, str: string) returns (ok: bool, matches: map<string, string>)
    ensures (ok, matches) == Greedy(segs, str, None, map[])
  {
    matches := map[];
    var lastSeg: Option<string> := None;
    var strLoc := 0;
    for i := 0 to |segs|
      invariant 0 <= strLoc <= |str|
      invariant Greedy(segs[i..], str[strLoc..], lastSeg, matches) == Greedy(segs, str, None, map[])
    {
      assert segs[i..][1..] == segs[i + 1..];
      var seg := segs[i];
      if seg.Placeholder? {
        lastSeg := Some(seg.value);
      } else {
        var matchLoc := Index(str[strLoc..], seg.value);
        if matchLoc >= 0 {
          if lastSeg.Some? {
            matches := matches[lastSeg.value := str[strLoc..matchLoc + strLoc]];
          } else if matchLoc > 0 {
            return false, matches;
          }
          assert str[strLoc..][matchLoc + |seg.value|..] == str[matchLoc + strLoc + |seg.value|..];
          assert str[strLoc..][..matchLoc] == str[strLoc..matchLoc + strLoc];
          strLoc := matchLoc + strLoc + |seg.value|;
        } else {
          return false, matches;
        }
        lastSeg := None;
      }
    }
    if lastSeg.Some? {
      matches := matches[lastSeg.value := str[strLoc..]];
    } else if strLoc < |str| {
      return false, matches;
    }
    return true, matches;
  }

  // ---------- What it is for ----------

  function Names(segs: seq<Segment>): set<string> {
    set seg | seg in segs && seg.Placeholder? :: seg.value
  }

  /** The value of a placeholder, empty when there is none. */
  function Value(m: map<string, string>, v: string): string {
    if v in m then m[v] else ""
  }

  /** The name a pattern stands for once its placeholders have values. */
  function Render(segs: seq<Segment>, m: map<string, string>): string {
    if segs == [] then ""
    else (if segs[0].Literal? then segs[0].value else Value(m, segs[0].value)) + Render(segs[1..], m)
  }

  ghost predicate Fits(segs: seq<Segment>, str: string) {
    exists m: map<string, string> :: Render(segs, m) == str
  }

  /** The rendering does not depend on values the segments do not name. */
  lemma {:induction false} RenderAgree(segs: seq<Segment>, m: map<string, string>, m': map<string, string>)
    requires forall v <- Names(segs) :: Value(m, v) == Value(m', v)
    ensures Render(segs, m) == Render(segs, m')
  {
    if segs != [] {
      assert Names(segs[1..]) <= Names(segs);
      assert segs[0].Placeholder? ==> segs[0].value in Names(segs);
      RenderAgree(segs[1..], m, m');
    }
  }

  /** What stands before the segments that are left: the value of the placeholder in waiting. */
  predicate Ready(segs: seq<Segment>, last: Option<string>) {
    && WellFormed(segs)
    && (last.Some? ==> last.value !in Names(segs) && (segs == [] || segs[0].Literal?))
  }

  lemma NamesOfRest(segs: seq<Segment>)
    requires WellFormed(segs) && segs != []
    ensures Names(segs) == Names(segs[1..]) + if segs[0].Placeholder? then {segs[0].value} else {}
    ensures segs[0].Placeholder? ==> segs[0].value !in Names(segs[1..])
  {
    assert segs == [segs[0]] + segs[1..];
  }

  /** The captures `m'` account for `str`, given the ones made before. */
  predicate Accounts(segs: seq<Segment>, str: string, last: Option<string>, m: map<string, string>,
                     m': map<string, string>)
  {
    && m'.Keys == m.Keys + Names(segs) + (if last.Some? then {last.value} else {})
    && (forall v <- m.Keys :: m'[v] == m[v])
    && str == (if last.Some? then Value(m', last.value) else "") + Render(segs, m')
  }

  lemma AccountsPlaceholder(segs: seq<Segment>, str: string, m: map<string, string>, m': map<string, string>)
    requires WellFormed(segs) && segs != [] && segs[0].Placeholder?
    requires Accounts(segs[1..], str, Some(segs[0].value), m, m')
    ensures Accounts(segs, str, None, m, m')
  {
    NamesOfRest(segs);
    assert Render(segs, m') == Value(m', segs[0].value) + Render(segs[1..], m');
    assert "" + Render(segs, m') == Render(segs, m');
  }

  lemma SplitAt(str: string, v: string, k: nat, tail: string)
    requires IsAt(str, v, k) && str[k + |v|..] == "" + tail
    ensures str == str[..k] + (v + tail) && (k == 0 ==> str == "" + (v + tail))
  {
    assert "" + tail == tail;
  }

  lemma RenderLiteral(segs: seq<Segment>, m: map<string, string>)
    requires segs != [] && segs[0].Literal?
    ensures Render(segs, m) == segs[0].value + Render(segs[1..], m)
  {
  }

  lemma AccountsLiteral(segs: seq<Segment>, str: string, k: nat, last: Option<string>,
                        m: map<string, string>, m': map<string, string>)
    requires Ready(segs, last) && segs != [] && segs[0].Literal? && (last.Some? ==> last.value !in m)
    requires IsAt(str, segs[0].value, k) && (last.None? ==> k == 0)
    requires Accounts(segs[1..], str[k + |segs[0].value|..], None,
             if last.Some? then m[last.value := str[..k]] else m, m')
    ensures Accounts(segs, str, last, m, m')
  {
    NamesOfRest(segs);
    hide WellFormed, Ready, Render, Names, IsAt;
    RenderLiteral(segs, m');
    SplitAt(str, segs[0].value, k, Render(segs[1..], m'));
    if last.Some? {
      assert last.value in m[last.value := str[..k]].Keys;
      assert m'[last.value] == str[..k];
    }
  }

  lemma {:induction false} GreedySound(segs: seq<Segment>, str: string, last: Option<string>, m: map<string, string>)
    requires Ready(segs, last) && Names(segs) !! m.Keys && (last.Some? ==> last.value !in m)
    requires Greedy(segs, str, last, m).0
    ensures Accounts(segs, str, last, m, Greedy(segs, str, last, m).1)
    decreases |segs|
  {
    if segs == [] {
      assert last.Some? ==> str + "" == str;
    } else {
      NamesOfRest(segs);
      var rest, v := segs[1..], segs[0].value;
      if segs[0].Placeholder? {
        GreedySound(rest, str, Some(v), m);
        AccountsPlaceholder(segs, str, m, Greedy(rest, str, Some(v), m).1);
      } else {
        var k := Index(str, v);
        var m1 := if last.Some? then m[last.value := str[..k]] else m;
        GreedySound(rest, str[k + |v|..], None, m1);
        AccountsLiteral(segs, str, k, last, m, Greedy(rest, str[k + |v|..], None, m1).1);
      }
    }
  }

  /** A positive answer is right: putting the captures back into the pattern rebuilds the name. */
  lemma MatchIsSound(segs: seq<Segment>, str: string)
    requires WellFormed(segs) && Greedy(segs, str, None, map[]).0
    ensures Greedy(segs, str, None, map[]).1.Keys == Names(segs)
    ensures Render(segs, Greedy(segs, str, None, map[]).1) == str
  {
    GreedySound(segs, str, None, map[]);
  }

  /**
   How much of `str` the matcher has consumed after all segments, or -1; `pending` if a placeholder awaits its
   value.
  */
  function Eaten(segs: seq<Segment>, str: string, pending: bool): int
    decreases |segs|
  {
    if segs == [] then 0
    else
      match segs[0]
      case Placeholder(_) => Eaten(segs[1..], str, true)
      case Literal(v) =>
        var k := Index(str, v);
        if k < 0 || (!pending && k > 0) then -1
        else
          var r := Eaten(segs[1..], str[k + |v|..], false);
          if r < 0 then -1 else k + |v| + r
  }

  predicate EndsOpen(segs: seq<Segment>, pending: bool) {
    if segs == [] then pending else segs[|segs| - 1].Placeholder?
  }

  lemma {:induction false} GreedyIsEaten(segs: seq<Segment>, str: string, last: Option<string>, m: map<string, string>)
    ensures Greedy(segs, str, last, m).0
            <==> var e := Eaten(segs, str, last.Some?); e >= 0 && (EndsOpen(segs, last.Some?) || e == |str|)
    decreases |segs|
  {
    if segs != [] {
      match segs[0]
      case Placeholder(v) => GreedyIsEaten(segs[1..], str, Some(v), m);
      case Literal(v) =>
        var k := Index(str, v);
        if k >= 0 {
          GreedyIsEaten(segs[1..], str[k + |v|..], None, if last.Some? then m[last.value := str[..k]] else m);
        }
    }
  }

  /** The matcher finds a literal no later than where it stands, and leaves the rest of the name alone. */
  lemma FoundEarly(str: string, u: string, v: string, tail: string) returns (extra: string)
    requires str == u + v + tail
    ensures var k := Index(str, v); 0 <= k <= |u| && str[k + |v|..] == extra + tail && |extra| == |u| - k
  {
    assert IsAt(str, v, |u|);
    var k := Index(str, v);
    extra := str[k + |v|..|u| + |v|];
  }

  lemma Regroup(a: string, b: string, c: string, d: string)
    ensures a + (b + c) + d == (a + b) + c + d == a + b + (c + d)
  {
  }

  /**
   The leftmost exchange: if any values fit the segments between `u` and `t`, the greedy matcher gets
   through too, and has consumed no more.
  */
  lemma {:induction false} Exchange(segs: seq<Segment>, str: string, u: string, m: map<string, string>,
                                    t: string, pending: bool)
    requires WellFormed(segs) && str == u + Render(segs, m) + t
    requires segs != [] ==> if segs[0].Literal? then pending || u == "" else !pending
    ensures 0 <= Eaten(segs, str, pending) <= |str| - |t|
    decreases |segs|
  {
    hide Value, Index, IsAt;
    if segs != [] {
      var rest := segs[1..];
      var v, after := segs[0].value, Render(rest, m);
      if segs[0].Placeholder? {
        Regroup(u, Value(m, v), after, t);
        Exchange(rest, str, u + Value(m, v), m, t, true);
      } else {
        Regroup(u, v, after, t);
        var extra := FoundEarly(str, u, v, after + t);
        Regroup(extra, "", after, t);
        Exchange(rest, str[Index(str, v) + |v|..], extra, m, t, false);
      }
    }
  }

  lemma EatenPlaceholder(segs: seq<Segment>, u: string, m: map<string, string>)
    requires WellFormed(segs) && segs != [] && segs[0].Placeholder?
    ensures Render(segs, m[segs[0].value := u]) == u + Render(segs[1..], m)
  {
    NamesOfRest(segs);
    RenderAgree(segs[1..], m, m[segs[0].value := u]);
  }

  /** What was consumed is itself a name the pattern stands for. */
  lemma {:induction false} EatenFits(segs: seq<Segment>, str: string, pending: bool)
    returns (u: string, m: map<string, string>)
    requires WellFormed(segs) && Eaten(segs, str, pending) >= 0
    ensures Eaten(segs, str, pending) <= |str|
    ensures str[..Eaten(segs, str, pending)] == u + Render(segs, m)
    ensures !pending ==> u == ""
    decreases |segs|
  {
    u, m := "", map[];
    if segs != [] {
      var rest, v := segs[1..], segs[0].value;
      if segs[0].Placeholder? {
        var u', m' := EatenFits(rest, str, true);
        EatenPlaceholder(segs, u', m');
        m := m'[v := u'];
        assert "" + Render(segs, m) == Render(segs, m);
      } else {
        var k := Index(str, v);
        var u', m' := EatenFits(rest, str[k + |v|..], false);
        u, m := str[..k], m';
        assert u' + Render(rest, m) == Render(rest, m);
        Glue(str, k, v, Eaten(rest, str[k + |v|..], false));
      }
    }
  }

  lemma Glue(str: string, k: nat, v: string, r: nat)
    requires IsAt(str, v, k) && k + |v| + r <= |str|
    ensures str[..k + |v| + r] == str[..k] + (v + str[k + |v|..][..r])
  {
  }

  /** Values that fit some beginning of the name bound what the matcher consumes. */
  lemma FitBounds(segs: seq<Segment>, str: string, p: nat)
    requires WellFormed(segs) && p <= |str| && Fits(segs, str[..p])
    ensures 0 <= Eaten(segs, str, false) <= p
  {
    var m: map<string, string> :| Render(segs, m) == str[..p];
    assert str == "" + str[..p] + str[p..];
    Exchange(segs, str, "", m, str[p..], false);
  }

  /** For a pattern that ends in a placeholder the matcher is exact. */
  lemma MatchIsCompleteWhenOpen(segs: seq<Segment>, str: string)
    requires WellFormed(segs) && EndsOpen(segs, false)
    ensures Greedy(segs, str, None, map[]).0 <==> Fits(segs, str)
  {
    GreedyIsEaten(segs, str, None, map[]);
    if Greedy(segs, str, None, map[]).0 {
      MatchIsSound(segs, str);
    }
    if Fits(segs, str) {
      assert str[..|str|] == str;
      FitBounds(segs, str, |str|);
    }
  }

  /**
   For a pattern that ends in a literal the matcher accepts a name exactly when the pattern fits it and
   fits no shorter beginning of it.
  */
  lemma MatchWhenClosed(segs: seq<Segment>, str: string)
    requires WellFormed(segs) && !EndsOpen(segs, false)
    ensures Greedy(segs, str, None, map[]).0
            <==> Fits(segs, str) && forall p :: 0 <= p < |str| ==> !Fits(segs, str[..p])
  {
    GreedyIsEaten(segs, str, None, map[]);
    var e := Eaten(segs, str, false);
    if Greedy(segs, str, None, map[]).0 {
      MatchIsSound(segs, str);
      forall p | 0 <= p < |str| ensures !Fits(segs, str[..p]) {
        if Fits(segs, str[..p]) {
          FitBounds(segs, str, p);
        }
      }
    } else if Fits(segs, str) {
      assert str[..|str|] == str;
      FitBounds(segs, str, |str|);
      var u, m := EatenFits(segs, str, false);
      assert u + Render(segs, m) == Render(segs, m);
      assert Fits(segs, str[..e]);
    }
  }

  // ---------- Which patterns are matched exactly ----------

  lemma RenderStep(segs: seq<Segment>, m: map<string, string>)
    requires segs != []
    ensures Render(segs, m)
            == (if segs[0].Literal? then segs[0].value else Value(m, segs[0].value)) + Render(segs[1..], m)
  {
  }

  lemma {:induction false} RenderAppend(a: seq<Segment>, b: seq<Segment>, m: map<string, string>)
    ensures Render(a + b, m) == Render(a, m) + Render(b, m)
  {
    if a == [] {
      assert a + b == b;
    } else {
      hide Render, Value;
      RenderAppend(a[1..], b, m);
      RenderStep(a, m);
      RenderStep(a + b, m);
      FirstOfBoth(a, b);
      var first := if a[0].Literal? then a[0].value else Value(m, a[0].value);
      Associates(first, Render(a[1..], m), Render(b, m));
    }
  }

  lemma FirstOfBoth(a: seq<Segment>, b: seq<Segment>)
    requires a != []
    ensures (a + b)[1..] == a[1..] + b && (a + b)[0] == a[0]
  {
  }

  lemma Associates(a: string, b: string, c: string)
    ensures a + (b + c) == (a + b) + c
  {
  }

  /** A pattern that ends in a literal and has more than that ends in a placeholder and a literal. */
  lemma {:induction false} EndsInTwo(segs: seq<Segment>)
    returns (front: seq<Segment>, name: string, tail: string)
    requires WellFormed(segs) && |segs| >= 2 && segs[|segs| - 1].Literal?
    ensures segs == front + [Placeholder(name), Literal(tail)] && tail != "" && Placeholder(name) !in front
  {
    if |segs| == 2 {
      front, name, tail := [], segs[0].value, segs[1].value;
      assert WellFormed(segs[1..]);
    } else {
      var rest;
      rest, name, tail := EndsInTwo(segs[1..]);
      front := [segs[0]] + rest;
      hide *;
      Prepended(segs, rest, name, tail);
    }
  }

  lemma Prepended(segs: seq<Segment>, rest: seq<Segment>, name: string, tail: string)
    requires segs != [] && segs[1..] == rest + [Placeholder(name), Literal(tail)] && Placeholder(name) !in rest
    requires WellFormed(segs)
    ensures segs == [segs[0]] + rest + [Placeholder(name), Literal(tail)] && Placeholder(name) !in [segs[0]] + rest
  {
    assert segs[1..][|rest|] == Placeholder(name);
    assert Placeholder(name) in segs[1..];
    assert segs == [segs[0]] + segs[1..];
  }

  /** Its last placeholder may stand for the literal behind it, and the matcher stops too early. */
  lemma ClosedPatternMisses(segs: seq<Segment>) returns (str: string)
    requires WellFormed(segs) && |segs| >= 2 && !EndsOpen(segs, false)
    ensures Fits(segs, str) && !Greedy(segs, str, None, map[]).0
  {
    hide Render, Greedy;
    var front, name, tail := EndsInTwo(segs);
    var end := [Placeholder(name), Literal(tail)];
    var short, long: map<string, string> := map[], map[name := tail];
    RenderAppend(front, end, short);
    RenderAppend(front, end, long);
    assert name !in Names(front);
    RenderAgree(front, short, long);
    EndRenders(name, tail, short);
    EndRenders(name, tail, long);
    str := Render(segs, long);
    var p := |Render(segs, short)|;
    assert str[..p] == Render(segs, short);
    assert Fits(segs, str[..p]);
    MatchWhenClosed(segs, str);
  }

  lemma EndRenders(name: string, tail: string, m: map<string, string>)
    ensures Render([Placeholder(name), Literal(tail)], m) == Value(m, name) + tail
  {
    var end := [Placeholder(name), Literal(tail)];
    assert end[1..] == [Literal(tail)] && end[1..][1..] == [];
    assert Render(end[1..], m) == tail + "" == tail;
  }

  lemma SingleLiteral(segs: seq<Segment>, str: string)
    requires WellFormed(segs) && |segs| <= 1 && !EndsOpen(segs, false)
    ensures Greedy(segs, str, None, map[]).0 <==> Fits(segs, str)
  {
    MatchWhenClosed(segs, str);
    if segs == [] {
      assert forall s :: Fits(segs, s) ==> s == "";
    } else {
      assert segs[1..] == [];
      assert forall m :: Render(segs, m) == segs[0].value + "" == segs[0].value;
    }
  }

  /** The patterns whose matcher is exact on every name: those that end in a placeholder, and single literals. */
  lemma ExactPatterns(segs: seq<Segment>)
    requires WellFormed(segs)
    ensures (forall str :: Greedy(segs, str, None, map[]).0 <==> Fits(segs, str))
            <==> EndsOpen(segs, false) || |segs| <= 1
  {
    if EndsOpen(segs, false) {
      forall str ensures Greedy(segs, str, None, map[]).0 <==> Fits(segs, str) {
        MatchIsCompleteWhenOpen(segs, str);
      }
    } else if |segs| <= 1 {
      forall str ensures Greedy(segs, str, None, map[]).0 <==> Fits(segs, str) {
        SingleLiteral(segs, str);
      }
    } else {
      var str := ClosedPatternMisses(segs);
    }
  }

  /** A name the pattern `{a}x` stands for and the matcher turns down. */
  lemma GreedyMissesClosedPattern()
    ensures var segs := [Placeholder("a"), Literal("x")];
            WellFormed(segs) && Fits(segs, "xx") && !Greedy(segs, "xx", None, map[]).0
  {
    var segs := [Placeholder("a"), Literal("x")];
    var m := map["a" := "x"];
    assert segs[1..] == [Literal("x")] && segs[1..][1..] == [];
    assert Render(segs, m) == "x" + Render(segs[1..], m) == "xx";
    assert IsAt("xx", "x", 0);
    assert "xx"[1..] == "x";
  }
}
