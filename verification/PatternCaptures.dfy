/** Which values the matcher captures: for each placeholder the shortest, from left to right. */
module PatternCaptures {
  import opened Strings
  import opened Wrappers
  import opened Pattern

  /** `literal` does not begin within `value` already when the two stand one after the other. */
  predicate EndsFirst(value: string, literal: string) {
    Index(value + literal, literal) == |value|
  }

  /** No placeholder has a value that could have ended sooner, before the literal that follows it. */
  predicate Shortest(segs: seq<Segment>, m: map<string, string>) {
    segs != [] ==>
      && (segs[0].Placeholder? && |segs| > 1 ==> EndsFirst(Value(m, segs[0].value), segs[1].value))
      && Shortest(segs[1..], m)
  }

  lemma CutEndsFirst(str: string, literal: string)
    requires Index(str, literal) >= 0
    ensures EndsFirst(str[..Index(str, literal)], literal)
  {
    var k := Index(str, literal);
    var s := str[..k] + literal;
    assert s == str[..k + |literal|];
    assert IsAt(s, literal, k);
    var i := Index(s, literal);
    assert str[i..i + |literal|] == s[i..i + |literal|];
    assert IsAt(str, literal, i);
  }

  lemma FoundAtEnd(value: string, literal: string, rest: string)
    requires EndsFirst(value, literal)
    ensures Index(value + (literal + rest), literal) == |value|
  {
    var s, str := value + literal, value + (literal + rest);
    assert str == s + rest;
    assert str[|value|..|value| + |literal|] == literal;
    assert IsAt(str, literal, |value|);
    var i := Index(str, literal);
    assert s[i..i + |literal|] == str[i..i + |literal|];
    assert IsAt(s, literal, i);
  }

  /** The values the matcher takes are the shortest. */
  lemma {:induction false} GreedyTakesShortest(segs: seq<Segment>, str: string, last: Option<string>,
                                               m: map<string, string>)
    requires Ready(segs, last) && Names(segs) !! m.Keys && (last.Some? ==> last.value !in m)
    requires Greedy(segs, str, last, m).0
    ensures Shortest(segs, Greedy(segs, str, last, m).1)
    ensures last.Some? && segs != [] ==> EndsFirst(Value(Greedy(segs, str, last, m).1, last.value), segs[0].value)
    decreases |segs|
  {
    if segs != [] {
      var rest, v := segs[1..], segs[0].value;
      NamesOfRest(segs);
      if segs[0].Placeholder? {
        GreedyTakesShortest(rest, str, Some(v), m);
      } else {
        var k := Index(str, v);
        var m1 := if last.Some? then m[last.value := str[..k]] else m;
        GreedyTakesShortest(rest, str[k + |v|..], None, m1);
        GreedySound(rest, str[k + |v|..], None, m1);
        CutEndsFirst(str, v);
      }
    }
  }

  lemma GreedyPlaceholder(segs: seq<Segment>, str: string, last: Option<string>, m: map<string, string>)
    requires segs != [] && segs[0].Placeholder?
    ensures Greedy(segs, str, last, m) == Greedy(segs[1..], str, Some(segs[0].value), m)
  {
  }

  lemma GreedyLiteral(segs: seq<Segment>, str: string, last: Option<string>, m: map<string, string>,
                      u: string, after: string)
    requires segs != [] && segs[0].Literal? && str == u + (segs[0].value + after)
    requires Index(str, segs[0].value) == |u| && (last.None? ==> u == "")
    ensures Greedy(segs, str, last, m)
            == Greedy(segs[1..], after, None, if last.Some? then m[last.value := u] else m)
  {
    assert str[|u| + |segs[0].value|..] == after && str[..|u|] == u;
  }

  /** The name that is left when the shortest values fit. */
  predicate Left(segs: seq<Segment>, str: string, last: Option<string>, w: map<string, string>) {
    && str == (if last.Some? then Value(w, last.value) else "") + Render(segs, w)
    && Shortest(segs, w)
    && (last.Some? && segs != [] ==> EndsFirst(Value(w, last.value), segs[0].value))
  }

  predicate Agree(r: map<string, string>, w: map<string, string>, segs: seq<Segment>, last: Option<string>) {
    && (forall v <- Names(segs) :: Value(r, v) == Value(w, v))
    && (last.Some? ==> Value(r, last.value) == Value(w, last.value))
  }

  lemma LeftPlaceholder(segs: seq<Segment>, str: string, w: map<string, string>)
    requires segs != [] && segs[0].Placeholder? && Left(segs, str, None, w)
    ensures Left(segs[1..], str, Some(segs[0].value), w)
  {
    assert "" + Render(segs, w) == Render(segs, w);
  }

  lemma LeftLiteral(segs: seq<Segment>, str: string, last: Option<string>, w: map<string, string>) returns (u: string)
    requires segs != [] && segs[0].Literal? && Left(segs, str, last, w)
    ensures u == (if last.Some? then Value(w, last.value) else "")
    ensures str == u + (segs[0].value + Render(segs[1..], w)) && Index(str, segs[0].value) == |u|
    ensures Left(segs[1..], Render(segs[1..], w), None, w)
  {
    u := if last.Some? then Value(w, last.value) else "";
    RenderLiteral(segs, w);
    LiteralIsFound(u, segs[0].value, Render(segs[1..], w), last.None?);
    assert "" + Render(segs[1..], w) == Render(segs[1..], w);
  }

  /** Where the shortest values fit, the matcher finds them. */
  lemma {:induction false} ShortestIsFound(segs: seq<Segment>, str: string, last: Option<string>,
                                           m: map<string, string>, w: map<string, string>)
    requires Ready(segs, last) && Names(segs) !! m.Keys && (last.Some? ==> last.value !in m)
    requires Left(segs, str, last, w)
    ensures Greedy(segs, str, last, m).0 && Agree(Greedy(segs, str, last, m).1, w, segs, last)
    decreases |segs|
  {
    if segs == [] {
      assert last.Some? ==> Value(w, last.value) + "" == Value(w, last.value);
    } else {
      var rest, v := segs[1..], segs[0].value;
      NamesOfRest(segs);
      hide Render, Shortest, EndsFirst, Greedy, Index, Left;
      if segs[0].Placeholder? {
        LeftPlaceholder(segs, str, w);
        GreedyPlaceholder(segs, str, last, m);
        ShortestIsFound(rest, str, Some(v), m, w);
      } else {
        var u := LeftLiteral(segs, str, last, w);
        var after := Render(rest, w);
        var m1 := if last.Some? then m[last.value := u] else m;
        GreedyLiteral(segs, str, last, m, u, after);
        ShortestIsFound(rest, after, None, m1, w);
        GreedySound(rest, after, None, m1);
      }
    }
  }

  lemma LiteralIsFound(u: string, v: string, rest: string, first: bool)
    requires if first then u == "" else EndsFirst(u, v)
    ensures Index(u + (v + rest), v) == |u|
  {
    if first {
      assert IsAt(u + (v + rest), v, 0);
    } else {
      FoundAtEnd(u, v, rest);
    }
  }

  /**
   The matcher, exactly, for every pattern: a name matches if and only if the shortest values, taken from left
   to right, rebuild it.
  */
  lemma MatchesByShortest(segs: seq<Segment>, str: string)
    requires WellFormed(segs)
    ensures Greedy(segs, str, None, map[]).0
            <==> exists w: map<string, string> :: Render(segs, w) == str && Shortest(segs, w)
  {
    if Greedy(segs, str, None, map[]).0 {
      MatchIsSound(segs, str);
      GreedyTakesShortest(segs, str, None, map[]);
    }
    if w: map<string, string> :| Render(segs, w) == str && Shortest(segs, w) {
      CapturesAreShortest(segs, str, w);
    }
  }

  /** And those are the captures: any shortest values that rebuild the name are the ones captured. */
  lemma CapturesAreShortest(segs: seq<Segment>, str: string, w: map<string, string>)
    requires WellFormed(segs) && Render(segs, w) == str && Shortest(segs, w)
    ensures Greedy(segs, str, None, map[]).0
    ensures forall v <- Names(segs) :: Value(Greedy(segs, str, None, map[]).1, v) == Value(w, v)
  {
    assert "" + Render(segs, w) == Render(segs, w);
    assert Left(segs, str, None, w);
    ShortestIsFound(segs, str, None, map[], w);
  }

  /** `{a}-{b}` on `1-2-3` captures 1 and 2-3, not 1-2 and 3. */
  lemma FirstDashSplits()
    ensures var r := Greedy([Placeholder("a"), Literal("-"), Placeholder("b")], "1-2-3", None, map[]);
            r.0 && Value(r.1, "a") == "1" && Value(r.1, "b") == "2-3"
  {
    var segs := [Placeholder("a"), Literal("-"), Placeholder("b")];
    var w := map["a" := "1", "b" := "2-3"];
    assert segs[1..] == [Literal("-"), Placeholder("b")] && segs[1..][1..] == [Placeholder("b")];
    assert [Placeholder("b")][1..] == [];
    assert Render([Placeholder("b")], w) == "2-3" + "" == "2-3";
    assert Render(segs[1..], w) == "-" + "2-3" == "-2-3";
    assert Render(segs, w) == "1" + "-2-3" == "1-2-3";
    IndexOfChar("1", '-', "");
    assert "1" + ['-'] + "" == "1" + "-";
    assert EndsFirst("1", "-");
    CapturesAreShortest(segs, "1-2-3", w);
    assert Placeholder("a") in segs && Placeholder("b") in segs;
    assert "a" in Names(segs) && "b" in Names(segs);
  }
}
