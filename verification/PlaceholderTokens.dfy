/**
 Templates whose braces only delimit whole placeholders, as sequences of tokens, and what the string
 operations of the rewriter do to them.
*/
module PlaceholderTokens {
  import opened Strings
  import opened Decimal
  import opened Placeholders

  /** Literal text, `{name}`, or the parameter `$k` that phase one has put in the place of a placeholder. */
  datatype Token = Text(text: string) | Brace(name: string) | Ref(k: nat)

  predicate TokenOk(t: Token) {
    match t
    case Text(s) => BraceFree(s)
    case Brace(n) => BraceFree(n)
    case Ref(_) => true
  }

  predicate TokensOk(ts: seq<Token>) {
    forall i :: 0 <= i < |ts| ==> TokenOk(ts[i])
  }

  function PrintToken(t: Token): string {
    match t
    case Text(s) => s
    case Brace(n) => Braced(n)
    case Ref(k) => Param(k)
  }

  function Print(ts: seq<Token>): string {
    if ts == [] then "" else PrintToken(ts[0]) + Print(ts[1..])
  }

  lemma PrintCons(t: Token, ts: seq<Token>)
    ensures Print([t] + ts) == PrintToken(t) + Print(ts)
  {
    assert ([t] + ts)[1..] == ts;
  }

  lemma ParamIsBraceFree(k: nat)
    ensures BraceFree(Param(k)) && Param(k)[0] == '$' && Param(k)[1..] == Itoa(k) && AllDigits(Itoa(k)) && Itoa(k) != ""
  {
  }

  // ---------- Searching past what cannot match ----------

  /** The search for `what` passes over `pre`. */
  predicate Skips(pre: string, rest: string, what: string) {
    Index(pre + rest, what) == if Index(rest, what) < 0 then -1 else |pre| + Index(rest, what)
  }

  lemma SkipsIf(pre: string, rest: string, what: string)
    requires forall i :: 0 <= i < |pre| ==> !IsAt(pre + rest, what, i)
    ensures Skips(pre, rest, what)
  {
    var all, r, k := pre + rest, Index(rest, what), Index(pre + rest, what);
    if r >= 0 {
      assert all[|pre| + r..|pre| + r + |what|] == rest[r..r + |what|];
      assert IsAt(all, what, |pre| + r);
    }
    if k >= 0 {
      assert rest[k - |pre|..k - |pre| + |what|] == all[k..k + |what|];
      assert IsAt(rest, what, k - |pre|);
    }
  }

  lemma CutBehind(pre: string, rest: string, r: nat, w: nat)
    requires r + w <= |rest|
    ensures (pre + rest)[..|pre| + r] == pre + rest[..r]
    ensures (pre + rest)[|pre| + r + w..] == rest[r + w..]
  {
  }

  lemma RegroupFour(a: string, b: string, c: string, d: string)
    ensures (a + b) + c + d == a + (b + c + d)
  {
  }

  lemma ReplaceOnceStep(s: string, what: string, with: string, k: nat, head: string, tail: string)
    requires Index(s, what) == k && s[..k] == head && s[k + |what|..] == tail
    ensures ReplaceOnce(s, what, with) == head + with + tail
  {
  }

  lemma {:induction false} ReplaceOnceSkips(pre: string, rest: string, what: string, with: string)
    requires Skips(pre, rest, what)
    ensures ReplaceOnce(pre + rest, what, with) == pre + ReplaceOnce(rest, what, with)
  {
    var r := Index(rest, what);
    if r >= 0 {
      var head, tail := rest[..r], rest[r + |what|..];
      CutBehind(pre, rest, r, |what|);
      ReplaceOnceStep(pre + rest, what, with, |pre| + r, pre + head, tail);
      ReplaceOnceStep(rest, what, with, r, head, tail);
      RegroupFour(pre, head, with, tail);
    }
  }

  lemma ReplaceAllStep(s: string, what: string, with: string, k: nat, head: string, tail: string)
    requires what != "" && Index(s, what) == k
    requires s[..k] == head && s[k + |what|..] == tail
    ensures ReplaceAll(s, what, with) == head + with + ReplaceAll(tail, what, with)
  {
  }

  lemma ReplaceAllSkips(pre: string, rest: string, what: string, with: string)
    requires Skips(pre, rest, what) && what != ""
    ensures ReplaceAll(pre + rest, what, with) == pre + ReplaceAll(rest, what, with)
  {
    var r := Index(rest, what);
    if r >= 0 {
      var head, tail := rest[..r], rest[r + |what|..];
      CutBehind(pre, rest, r, |what|);
      ReplaceAllStep(pre + rest, what, with, |pre| + r, pre + head, tail);
      ReplaceAllStep(rest, what, with, r, head, tail);
      RegroupFour(pre, head, with, ReplaceAll(tail, what, with));
    }
  }

  // ---------- One brace token at the front ----------

  function Braced(name: string): string {
    "{" + name + "}"
  }

  predicate FirstClose(s: string, i: nat) {
    i < |s| && s[i] == '}' && forall j :: 0 <= j < i ==> s[j] != '}'
  }

  lemma BracedCloses(name: string, rest: string)
    requires BraceFree(name)
    ensures FirstClose(Braced(name) + rest, |name| + 1)
    ensures forall i :: 0 < i < |name| + 2 ==> (Braced(name) + rest)[i] != '{'
  {
  }

  /** `{n}` stands at the front of `{name}...` only when the names agree. */
  lemma BraceAtFront(n: string, name: string, rest: string)
    requires BraceFree(n) && BraceFree(name)
    ensures IsAt(Braced(name) + rest, Braced(n), 0) <==> n == name
  {
    var s, what := Braced(name) + rest, Braced(n);
    BracedCloses(name, rest);
    if IsAt(s, what, 0) {
      BracedCloses(n, "");
      assert forall i :: 0 <= i < |what| ==> s[i] == what[i];
      assert FirstClose(s, |n| + 1);
      assert |n| == |name|;
      assert forall i :: 0 <= i < |n| ==> n[i] == what[i + 1] && name[i] == s[i + 1];
    }
    if n == name {
      assert s[0..|what|] == what;
    }
  }

  /** A token that is not the one sought is passed over. */
  lemma TokenSkips(t: Token, rest: string, n: string)
    requires TokenOk(t) && BraceFree(n) && t != Brace(n)
    ensures Skips(PrintToken(t), rest, Braced(n))
  {
    var pre, what := PrintToken(t), Braced(n);
    var s := pre + rest;
    if t.Brace? {
      BraceAtFront(n, t.name, rest);
      BracedCloses(t.name, rest);
    } else if t.Ref? {
      ParamIsBraceFree(t.k);
    }
    FirstChars(s, what);
    forall i | 0 <= i < |pre| ensures !IsAt(s, what, i) {
      assert s[i] == pre[i];
    }
    SkipsIf(pre, rest, what);
  }

  lemma BraceFound(n: string, rest: string)
    requires BraceFree(n)
    ensures Index(Braced(n) + rest, Braced(n)) == 0
    ensures (Braced(n) + rest)[|Braced(n)|..] == rest
  {
    BraceAtFront(n, n, rest);
  }

  // ---------- Replacing in tokens ----------

  /** The first `{n}` becomes `t`. */
  function ReplaceFirst(ts: seq<Token>, n: string, t: Token): seq<Token> {
    if ts == [] then [] else if ts[0] == Brace(n) then [t] + ts[1..] else [ts[0]] + ReplaceFirst(ts[1..], n, t)
  }

  function ReplaceEach(ts: seq<Token>, n: string, t: Token): seq<Token> {
    if ts == [] then []
    else [if ts[0] == Brace(n) then t else ts[0]] + ReplaceEach(ts[1..], n, t)
  }

  lemma ReplaceInNothing(n: string, with: string)
    ensures ReplaceOnce("", Braced(n), with) == "" && ReplaceAll("", Braced(n), with) == ""
  {
  }

  lemma BraceReplaced(n: string, rest: string, with: string)
    requires BraceFree(n)
    ensures ReplaceOnce(Braced(n) + rest, Braced(n), with) == with + rest
  {
    BraceFound(n, rest);
    assert "" + with + rest == with + rest;
  }

  lemma {:induction false} ReplaceFirstOk(ts: seq<Token>, n: string, t: Token)
    requires TokensOk(ts) && BraceFree(n)
    ensures ReplaceOnce(Print(ts), Braced(n), PrintToken(t)) == Print(ReplaceFirst(ts, n, t))
  {
    if ts == [] {
      ReplaceInNothing(n, PrintToken(t));
    } else if ts[0] == Brace(n) {
      BraceReplaced(n, Print(ts[1..]), PrintToken(t));
      PrintCons(t, ts[1..]);
    } else {
      ReplaceFirstOk(ts[1..], n, t);
      TokenSkips(ts[0], Print(ts[1..]), n);
      ReplaceOnceSkips(PrintToken(ts[0]), Print(ts[1..]), Braced(n), PrintToken(t));
      PrintCons(ts[0], ReplaceFirst(ts[1..], n, t));
    }
  }

  lemma {:induction false} BraceReplacedThrough(n: string, rest: string, with: string)
    requires BraceFree(n)
    ensures ReplaceAll(Braced(n) + rest, Braced(n), with) == with + ReplaceAll(rest, Braced(n), with)
  {
    BraceFound(n, rest);
    ReplaceAllStep(Braced(n) + rest, Braced(n), with, 0, "", rest);
    assert "" + with == with;
  }

  lemma {:induction false} ReplaceEachStep(ts: seq<Token>, n: string, t: Token)
    requires ts != []
    ensures Print(ReplaceEach(ts, n, t))
            == PrintToken(if ts[0] == Brace(n) then t else ts[0]) + Print(ReplaceEach(ts[1..], n, t))
  {
    hide Print, PrintToken;
    PrintCons(if ts[0] == Brace(n) then t else ts[0], ReplaceEach(ts[1..], n, t));
  }

  lemma {:induction false} ReplaceEachOk(ts: seq<Token>, n: string, t: Token)
    requires TokensOk(ts) && BraceFree(n)
    ensures ReplaceAll(Print(ts), Braced(n), PrintToken(t)) == Print(ReplaceEach(ts, n, t))
  {
    if ts == [] {
      ReplaceInNothing(n, PrintToken(t));
    } else if ts[0] == Brace(n) {
      hide ReplaceAll, ReplaceEach, Braced;
      ReplaceEachOk(ts[1..], n, t);
      BraceReplacedThrough(n, Print(ts[1..]), PrintToken(t));
      ReplaceEachStep(ts, n, t);
    } else {
      hide ReplaceAll, ReplaceEach, PrintToken, Braced;
      ReplaceEachOk(ts[1..], n, t);
      TokenSkips(ts[0], Print(ts[1..]), n);
      ReplaceAllSkips(PrintToken(ts[0]), Print(ts[1..]), Braced(n), PrintToken(t));
      ReplaceEachStep(ts, n, t);
    }
  }

  // ---------- Finding the placeholders of one class ----------

  /** The placeholder class is the part of its prefix behind the brace: `env.`, `ctx.` or `layer.`. */
  predicate OfClass(t: Token, cls: string) {
    t.Brace? && cls <= t.name
  }

  function Found(ts: seq<Token>, cls: string): seq<string> {
    if ts == [] then []
    else (if OfClass(ts[0], cls) then [PrintToken(ts[0])] else []) + Found(ts[1..], cls)
  }

  lemma NextBraceIs(s: string, i: nat, j: nat)
    requires i <= j < |s| && IsBrace(s[j]) && forall k :: i <= k < j ==> !IsBrace(s[k])
    ensures NextBrace(s, i) == j
  {
  }

  lemma MatchAtBrace(name: string, rest: string, cls: string)
    requires BraceFree(name) && BraceFree(cls)
    ensures MatchLength(Braced(name) + rest, "{" + cls) == if cls <= name then |name| + 2 else 0
  {
    var s, prefix := Braced(name) + rest, "{" + cls;
    assert forall k :: 0 <= k < |name| ==> s[k + 1] == name[k];
    assert s[|name| + 1] == '}';
    if cls <= name {
      assert s[..|prefix|] == prefix;
      forall k | |prefix| <= k < |name| + 1 ensures !IsBrace(s[k]) {
        assert s[k] == name[k - 1];
      }
      NextBraceIs(s, |prefix|, |name| + 1);
    } else if IsAt(s, prefix, 0) {
      assert forall m :: 1 <= m < |prefix| ==> s[m] == prefix[m] && prefix[m] == cls[m - 1];
    }
  }

  lemma {:induction false} FindAllPast(pre: string, rest: string, prefix: string)
    requires prefix != "" && prefix[0] == '{' && forall i :: 0 <= i < |pre| ==> pre[i] != '{'
    ensures FindAll(pre + rest, prefix) == FindAll(rest, prefix)
  {
    var s := pre + rest;
    if pre == "" {
      assert s == rest;
    } else {
      FirstChars(s, prefix);
      assert s[0] == pre[0];
      assert s[1..] == pre[1..] + rest;
      FindAllPast(pre[1..], rest, prefix);
    }
  }

  lemma FindAllAtBrace(name: string, rest: string, cls: string)
    requires BraceFree(name) && BraceFree(cls)
    ensures FindAll(Braced(name) + rest, "{" + cls)
            == (if cls <= name then [Braced(name)] else []) + FindAll(rest, "{" + cls)
  {
    var s := Braced(name) + rest;
    MatchAtBrace(name, rest, cls);
    if cls <= name {
      assert s[..|name| + 2] == Braced(name) && s[|name| + 2..] == rest;
    } else {
      assert s[1..] == (name + "}") + rest;
      FindAllPast(name + "}", rest, "{" + cls);
    }
  }

  lemma {:induction false} FindAllOk(ts: seq<Token>, cls: string)
    requires TokensOk(ts) && BraceFree(cls)
    ensures FindAll(Print(ts), "{" + cls) == Found(ts, cls)
  {
    if ts != [] {
      FindAllOk(ts[1..], cls);
      if ts[0].Brace? {
        FindAllAtBrace(ts[0].name, Print(ts[1..]), cls);
      } else {
        if ts[0].Ref? {
          ParamIsBraceFree(ts[0].k);
        }
        FindAllPast(PrintToken(ts[0]), Print(ts[1..]), "{" + cls);
      }
    }
  }
}
