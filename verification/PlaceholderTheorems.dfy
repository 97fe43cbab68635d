/** Numbering, filling and splicing together amount to substituting each placeholder where it stands. */
module PlaceholderTheorems {
  import opened Strings
  import opened Placeholders
  import opened PlaceholderTokens

  type Coords = seq<(string, string)>

  // ---------- Phase one on tokens ----------

  function NumberTokens(ts: seq<Token>, cls: string, i: nat): seq<Token> {
    if ts == [] then []
    else if OfClass(ts[0], cls) then [Ref(i)] + NumberTokens(ts[1..], cls, i + 1)
    else [ts[0]] + NumberTokens(ts[1..], cls, i)
  }

  lemma {:induction false} FirstIsBehind(pre: seq<Token>, n: string, rest: seq<Token>, t: Token)
    requires forall i :: 0 <= i < |pre| ==> pre[i] != Brace(n)
    ensures ReplaceFirst(pre + [Brace(n)] + rest, n, t) == pre + [t] + rest
  {
    var all := pre + [Brace(n)] + rest;
    if pre == [] {
      assert all[1..] == rest && [] + [t] + rest == [t] + rest;
    } else {
      FirstIsBehind(pre[1..], n, rest, t);
      assert all[1..] == pre[1..] + [Brace(n)] + rest;
    }
  }

  /** The next match replaced: the token at the border becomes a parameter. */
  lemma NumberStep(pre: seq<Token>, ts: seq<Token>, cls: string, i: nat)
    requires TokensOk(pre + ts) && forall j :: 0 <= j < |pre| ==> !OfClass(pre[j], cls)
    requires ts != [] && OfClass(ts[0], cls)
    ensures ReplaceOnce(Print(pre + ts), PrintToken(ts[0]), Param(i)) == Print(pre + [Ref(i)] + ts[1..])
    ensures TokensOk(pre + [Ref(i)] + ts[1..])
  {
    var n := ts[0].name;
    assert pre + ts == pre + [Brace(n)] + ts[1..];
    assert (pre + ts)[|pre|] == ts[0];
    ReplaceFirstOk(pre + ts, n, Ref(i));
    FirstIsBehind(pre, n, ts[1..], Ref(i));
    StillOk(pre, ts, Ref(i));
  }

  lemma Border(pre: seq<Token>, t: Token, rest: seq<Token>)
    ensures pre + ([t] + rest) == (pre + [t]) + rest
  {
  }

  /** Replacing the matches of one class one after the other numbers the placeholders from left to right. */
  lemma {:induction false} NumberedOk(pre: seq<Token>, ts: seq<Token>, cls: string, i: nat)
    requires TokensOk(pre + ts) && forall j :: 0 <= j < |pre| ==> !OfClass(pre[j], cls)
    ensures Numbered(Print(pre + ts), Found(ts, cls), i) == Print(pre + NumberTokens(ts, cls, i))
    decreases |ts|
  {
    if ts != [] {
      var t, rest := ts[0], ts[1..];
      if OfClass(t, cls) {
        NumberStep(pre, ts, cls, i);
        assert Found(ts, cls)[0] == PrintToken(t) && Found(ts, cls)[1..] == Found(rest, cls);
        NumberedOk(pre + [Ref(i)], rest, cls, i + 1);
        Border(pre, Ref(i), NumberTokens(rest, cls, i + 1));
      } else {
        assert ts == [t] + rest && Found(ts, cls) == Found(rest, cls);
        Border(pre, t, rest);
        NumberedOk(pre + [t], rest, cls, i);
        Border(pre, t, NumberTokens(rest, cls, i));
      }
    }
  }

  lemma StillOk(pre: seq<Token>, ts: seq<Token>, t: Token)
    requires TokensOk(pre + ts) && ts != [] && TokenOk(t)
    ensures TokensOk(pre + [t] + ts[1..])
  {
    forall i | 0 <= i < |pre + [t] + ts[1..]| ensures TokenOk((pre + [t] + ts[1..])[i]) {
      assert i != |pre| ==> (pre + [t] + ts[1..])[i] == (pre + ts)[i];
    }
  }

  lemma {:induction false} NumberTokensOk(ts: seq<Token>, cls: string, i: nat)
    requires TokensOk(ts)
    ensures TokensOk(NumberTokens(ts, cls, i))
  {
    if ts != [] {
      NumberTokensOk(ts[1..], cls, i + if OfClass(ts[0], cls) then 1 else 0);
    }
  }

  function LookupText(coords: Coords, n: string): Token {
    if coords == [] then Brace(n)
    else if coords[0].0 == n then Text(coords[0].1) else LookupText(coords[1..], n)
  }

  function FillToken(t: Token, coords: Coords): Token {
    if t.Brace? then LookupText(coords, t.name) else t
  }

  function FillTokens(ts: seq<Token>, coords: Coords): seq<Token> {
    if ts == [] then [] else [FillToken(ts[0], coords)] + FillTokens(ts[1..], coords)
  }

  predicate CoordsOk(coords: Coords) {
    forall i :: 0 <= i < |coords| ==> BraceFree(coords[i].0) && BraceFree(coords[i].1)
  }

  lemma {:induction false} FillOne(ts: seq<Token>, c: (string, string), coords: Coords)
    ensures FillTokens(ReplaceEach(ts, c.0, Text(c.1)), coords) == FillTokens(ts, [c] + coords)
  {
    if ts != [] {
      FillOne(ts[1..], c, coords);
      assert ([c] + coords)[1..] == coords;
    }
  }

  lemma {:induction false} ReplaceEachKeepsOk(ts: seq<Token>, n: string, t: Token)
    requires TokensOk(ts) && TokenOk(t)
    ensures TokensOk(ReplaceEach(ts, n, t))
  {
    if ts != [] {
      ReplaceEachKeepsOk(ts[1..], n, t);
    }
  }

  lemma {:induction false} FillNothing(ts: seq<Token>)
    ensures FillTokens(ts, []) == ts
  {
    if ts != [] {
      FillNothing(ts[1..]);
    }
  }

  /** Filling in the coordinates one after the other is looking each of them up. */
  lemma {:induction false} FilledOk(ts: seq<Token>, coords: Coords)
    requires TokensOk(ts) && CoordsOk(coords)
    ensures Filled(Print(ts), coords) == Print(FillTokens(ts, coords))
    decreases |coords|
  {
    if coords == [] {
      FillNothing(ts);
    } else {
      var c := coords[0];
      ReplaceEachOk(ts, c.0, Text(c.1));
      ReplaceEachKeepsOk(ts, c.0, Text(c.1));
      FilledOk(ReplaceEach(ts, c.0, Text(c.1)), coords[1..]);
      FillOne(ts, c, coords[1..]);
      assert [c] + coords[1..] == coords;
    }
  }

  // ---------- The template after phase one ----------

  const ENV := "env."
  const CTX := "ctx."
  const LAYER := "layer."

  /** How many placeholders of each class have been passed. */
  datatype Counters = Counters(env: nat, ctx: nat, layer: nat)

  function Advance(t: Token, n: Counters): Counters {
    if OfClass(t, ENV) then n.(env := n.env + 1)
    else if OfClass(t, CTX) then n.(ctx := n.ctx + 1)
    else if OfClass(t, LAYER) then n.(layer := n.layer + 1)
    else n
  }

  function FinalToken(t: Token, n: Counters, coords: Coords): Token {
    if OfClass(t, ENV) then Ref(n.env)
    else if OfClass(t, CTX) then Ref(n.ctx)
    else if OfClass(t, LAYER) then Ref(n.layer)
    else FillToken(t, coords)
  }

  function Final(ts: seq<Token>, n: Counters, coords: Coords): seq<Token> {
    if ts == [] then []
    else [FinalToken(ts[0], n, coords)] + Final(ts[1..], Advance(ts[0], n), coords)
  }

  /** The three passes and the filling act on each token once. */
  lemma {:induction false} PassesAreFinal(ts: seq<Token>, n: Counters, coords: Coords)
    ensures FillTokens(NumberTokens(NumberTokens(NumberTokens(ts, ENV, n.env), CTX, n.ctx), LAYER, n.layer), coords)
            == Final(ts, n, coords)
  {
    if ts != [] {
      PassesAreFinal(ts[1..], Advance(ts[0], n), coords);
    }
  }

  function CountOf(ts: seq<Token>, cls: string): nat {
    if ts == [] then 0 else (if OfClass(ts[0], cls) then 1 else 0) + CountOf(ts[1..], cls)
  }

  function ClassValues(ts: seq<Token>, cls: string, f: string -> string): seq<string> {
    if ts == [] then []
    else (if OfClass(ts[0], cls) then [f(ts[0].name[|cls|..])] else []) + ClassValues(ts[1..], cls, f)
  }

  lemma {:induction false} LookedOk(ts: seq<Token>, cls: string, f: string -> string)
    ensures Looked(Found(ts, cls), "{" + cls, f) == ClassValues(ts, cls, f)
    ensures |ClassValues(ts, cls, f)| == |Found(ts, cls)| == CountOf(ts, cls)
  {
    if ts != [] {
      LookedOk(ts[1..], cls, f);
      if OfClass(ts[0], cls) {
        var m := PrintToken(ts[0]);
        assert Found(ts, cls)[0] == m && Found(ts, cls)[1..] == Found(ts[1..], cls);
        assert Inner(m, "{" + cls) == ts[0].name[|cls|..];
        assert Looked(Found(ts, cls), "{" + cls, f)
            == [f(ts[0].name[|cls|..])] + Looked(Found(ts[1..], cls), "{" + cls, f);
      } else {
        assert Found(ts, cls) == Found(ts[1..], cls);
      }
    }
  }

  /** Numbering one class leaves the values of another alone. */
  lemma {:induction false} OtherValuesStay(ts: seq<Token>, cls: string, other: string, i: nat, f: string -> string)
    requires cls != "" && other != "" && cls[0] != other[0]
    ensures ClassValues(NumberTokens(ts, cls, i), other, f) == ClassValues(ts, other, f)
  {
    if ts != [] {
      assert OfClass(ts[0], cls) ==> !OfClass(ts[0], other);
      OtherValuesStay(ts[1..], cls, other, i + if OfClass(ts[0], cls) then 1 else 0, f);
    }
  }

  /** One pass over a printed template. */
  lemma {:induction false} PassOk(s: string, ts: seq<Token>, before: seq<string>, prefix: string, cls: string,
                                  f: string -> string)
    requires s == Print(ts) && TokensOk(ts) && BraceFree(cls) && prefix == "{" + cls
    ensures NumberNext((s, before), prefix, 0, f)
            == (Print(NumberTokens(ts, cls, |before|)), before + ClassValues(ts, cls, f))
  {
    FindAllOk(ts, cls);
    NumberedOk([], ts, cls, |before|);
    LookedOk(ts, cls, f);
    assert [] + ts == ts && [] + NumberTokens(ts, cls, |before|) == NumberTokens(ts, cls, |before|);
  }

  /** Where the numbers of the three classes start. */
  function Starts(ts: seq<Token>): Counters {
    Counters(0, CountOf(ts, ENV), CountOf(ts, ENV) + CountOf(ts, CTX))
  }

  function AllValues(ts: seq<Token>, v: Values): seq<string> {
    ClassValues(ts, ENV, v.env) + ClassValues(ts, CTX, v.ctx) + ClassValues(ts, LAYER, v.layer)
  }

  function AllNumbered(ts: seq<Token>): seq<Token> {
    NumberTokens(NumberTokens(NumberTokens(ts, ENV, 0), CTX, Starts(ts).ctx), LAYER, Starts(ts).layer)
  }

  lemma AllNumberedOk(ts: seq<Token>)
    requires TokensOk(ts)
    ensures TokensOk(AllNumbered(ts))
  {
    NumberTokensOk(ts, ENV, 0);
    NumberTokensOk(NumberTokens(ts, ENV, 0), CTX, Starts(ts).ctx);
    NumberTokensOk(NumberTokens(NumberTokens(ts, ENV, 0), CTX, Starts(ts).ctx), LAYER, Starts(ts).layer);
  }

  lemma PrefixesAreClasses()
    ensures ENV_PREFIX == "{" + ENV && CTX_PREFIX == "{" + CTX && LAYER_PREFIX == "{" + LAYER
  {
  }

  /** A pass over what an earlier pass has left. */
  lemma {:induction false} NextPassOk(done: (string, seq<string>), ts: seq<Token>, earlier: string, i: nat,
                                      prefix: string, cls: string, f: string -> string)
    requires TokensOk(ts) && BraceFree(cls) && prefix == "{" + cls && cls != "" && earlier != "" && earlier[0] != cls[0]
    requires done.0 == Print(NumberTokens(ts, earlier, i))
    ensures NumberNext(done, prefix, 0, f)
            == (Print(NumberTokens(NumberTokens(ts, earlier, i), cls, |done.1|)), done.1 + ClassValues(ts, cls, f))
  {
    NumberTokensOk(ts, earlier, i);
    PassOk(done.0, NumberTokens(ts, earlier, i), done.1, prefix, cls, f);
    OtherValuesStay(ts, earlier, cls, i, f);
  }

  lemma {:induction false} EnvPassOk(s: string, ts: seq<Token>, v: Values)
    requires s == Print(ts) && TokensOk(ts)
    ensures NumberNext((s, []), ENV_PREFIX, 0, v.env) == (Print(NumberTokens(ts, ENV, 0)), ClassValues(ts, ENV, v.env))
    ensures |ClassValues(ts, ENV, v.env)| == Starts(ts).ctx
  {
    PrefixesAreClasses();
    PassOk(s, ts, [], ENV_PREFIX, ENV, v.env);
    LookedOk(ts, ENV, v.env);
    assert [] + ClassValues(ts, ENV, v.env) == ClassValues(ts, ENV, v.env);
  }

  lemma {:induction false} CtxPassOk(env: (string, seq<string>), ts: seq<Token>, v: Values)
    requires TokensOk(ts) && |env.1| == Starts(ts).ctx
    requires env.0 == Print(NumberTokens(ts, ENV, 0)) && env.1 == ClassValues(ts, ENV, v.env)
    ensures NumberNext(env, CTX_PREFIX, 0, v.ctx)
            == (Print(NumberTokens(NumberTokens(ts, ENV, 0), CTX, Starts(ts).ctx)), env.1 + ClassValues(ts, CTX, v.ctx))
    ensures |env.1 + ClassValues(ts, CTX, v.ctx)| == Starts(ts).layer
  {
    PrefixesAreClasses();
    NextPassOk(env, ts, ENV, 0, CTX_PREFIX, CTX, v.ctx);
    LookedOk(ts, CTX, v.ctx);
  }

  lemma {:induction false} LayerPassOk(ctx: (string, seq<string>), ts: seq<Token>, v: Values)
    requires TokensOk(ts) && |ctx.1| == Starts(ts).layer
    requires ctx.0 == Print(NumberTokens(NumberTokens(ts, ENV, 0), CTX, Starts(ts).ctx))
    ensures NumberNext(ctx, LAYER_PREFIX, 0, v.layer)
            == (Print(AllNumbered(ts)), ctx.1 + ClassValues(ts, LAYER, v.layer))
  {
    PrefixesAreClasses();
    NumberTokensOk(ts, ENV, 0);
    NextPassOk(ctx, NumberTokens(ts, ENV, 0), CTX, Starts(ts).ctx, LAYER_PREFIX, LAYER, v.layer);
    OtherValuesStay(ts, ENV, LAYER, 0, v.layer);
  }

  /** The three passes on a template number its placeholders and collect their values. */
  lemma {:induction false} NumberAllOk(s: string, ts: seq<Token>, v: Values)
    requires s == Print(ts) && TokensOk(ts)
    ensures NumberAll(s, 0, v) == (Print(AllNumbered(ts)), AllValues(ts, v))
  {
    EnvPassOk(s, ts, v);
    CtxPassOk(NumberNext((s, []), ENV_PREFIX, 0, v.env), ts, v);
    LayerPassOk(NumberNext(NumberNext((s, []), ENV_PREFIX, 0, v.env), CTX_PREFIX, 0, v.ctx), ts, v);
  }

  /** Phase one as a whole. */
  lemma {:induction false} PhaseOneOk(ts: seq<Token>, v: Values, coords: Coords)
    requires TokensOk(ts) && CoordsOk(coords)
    ensures Filled(NumberAll(Print(ts), 0, v).0, coords) == Print(Final(ts, Starts(ts), coords))
    ensures NumberAll(Print(ts), 0, v).1 == AllValues(ts, v)
  {
    NumberAllOk(Print(ts), ts, v);
    AllNumberedOk(ts);
    FilledOk(AllNumbered(ts), coords);
    PassesAreFinal(ts, Starts(ts), coords);
  }
}
