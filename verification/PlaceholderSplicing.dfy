/** The splicing scan: exactly when it reads the parameters of phase one and nothing else, and what it then writes. */
module PlaceholderSplicing {
  import opened Strings
  import opened Decimal
  import opened Placeholders
  import opened PlaceholderTokens
  import opened PlaceholderTheorems

  // ---------- What the scan reads ----------

  /** The scan takes `raw[pos..end]` for parameter `idx`. */
  datatype Splice = Splice(pos: nat, idx: nat, end: nat)

  /** The number the scan reads behind the dollar sign at `pos`, or -1. */
  function IndexAt(raw: string, pos: nat): int
    requires pos < |raw|
  {
    Atoi(raw[pos + 1..DigitsEnd(raw, pos + 1)])
  }

  predicate ReadsAt(raw: string, pos: nat, n: nat)
    requires pos < |raw|
  {
    raw[pos] == '$' && 0 <= IndexAt(raw, pos) < n
  }

  /** All the parameters the scan finds from `pos` on when there are `n` values. */
  function Splices(raw: string, pos: nat, n: nat): seq<Splice>
    requires pos <= |raw|
    decreases |raw| - pos
  {
    if pos == |raw| then []
    else if ReadsAt(raw, pos, n) then
      var end := DigitsEnd(raw, pos + 1);
      [Splice(pos, IndexAt(raw, pos), end)] + Splices(raw, end, n)
    else Splices(raw, pos + 1, n)
  }

  /** The parameters phase one has put into the template. */
  function Intended(ts: seq<Token>, pos: nat): seq<Splice> {
    if ts == [] then []
    else
      var end := pos + |PrintToken(ts[0])|;
      (if ts[0].Ref? then [Splice(pos, ts[0].k, end)] else []) + Intended(ts[1..], end)
  }

  lemma {:induction false} IntendedFrom(ts: seq<Token>, pos: nat)
    ensures forall i :: 0 <= i < |Intended(ts, pos)| ==> pos <= Intended(ts, pos)[i].pos
  {
    if ts != [] {
      IntendedFrom(ts[1..], pos + |PrintToken(ts[0])|);
    }
  }

  /** The scan treats the token at `pos` as what it is: the parameter is read whole, other text not at all. */
  predicate SafeToken(t: Token, raw: string, pos: nat, n: nat) {
    var end := pos + |PrintToken(t)|;
    if t.Ref? then end >= |raw| || !IsDigit(raw[end])
    else forall i :: pos <= i < end && i < |raw| ==> !ReadsAt(raw, i, n)
  }

  /**
   No parameter runs into a digit, and no other dollar sign is followed by the number of a value.
   This is a condition on the template with its coordinates filled in; the values do not matter.
  */
  predicate Safe(ts: seq<Token>, raw: string, pos: nat, n: nat)
    decreases |ts|
  {
    ts == [] || (SafeToken(ts[0], raw, pos, n) && Safe(ts[1..], raw, pos + |PrintToken(ts[0])|, n))
  }

  lemma DigitsEndIs(s: string, i: nat, j: nat)
    requires i <= j <= |s| && AllDigits(s[i..j]) && (j < |s| ==> !IsDigit(s[j]))
    ensures DigitsEnd(s, i) == j
  {
    var e := DigitsEnd(s, i);
    assert forall k :: i <= k < j ==> IsDigit(s[i..j][k - i]) && s[i..j][k - i] == s[k];
    assert forall k :: i <= k < e ==> IsDigit(s[i..e][k - i]) && s[i..e][k - i] == s[k];
  }

  lemma DigitsRead(raw: string, pos: nat, end: nat, digits: string)
    requires pos + 1 < end <= |raw| && raw[pos + 1..end] == digits && AllDigits(digits)
    ensures end <= DigitsEnd(raw, pos + 1)
    ensures DigitsEnd(raw, pos + 1) == end <==> end == |raw| || !IsDigit(raw[end])
    ensures DigitsEnd(raw, pos + 1) == end ==> IndexAt(raw, pos) == Atoi(digits)
  {
    var e := DigitsEnd(raw, pos + 1);
    assert forall i :: pos + 1 <= i < end ==> IsDigit(digits[i - pos - 1]) && digits[i - pos - 1] == raw[i];
    if end == |raw| || !IsDigit(raw[end]) {
      DigitsEndIs(raw, pos + 1, end);
    }
  }

  /** A parameter is read as itself exactly when no digit follows it. */
  lemma ParamRead(raw: string, pos: nat, k: nat)
    requires pos + |Param(k)| <= |raw| && raw[pos..pos + |Param(k)|] == Param(k) && k <= MAX_INT
    ensures var end := pos + |Param(k)|;
            && raw[pos] == '$' && pos + 1 < end && end <= DigitsEnd(raw, pos + 1)
            && (DigitsEnd(raw, pos + 1) == end <==> end == |raw| || !IsDigit(raw[end]))
            && (DigitsEnd(raw, pos + 1) == end ==> IndexAt(raw, pos) == k)
  {
    var end := pos + |Param(k)|;
    ParamIsBraceFree(k);
    assert raw[pos + 1..end] == raw[pos..end][1..];
    assert raw[pos] == raw[pos..end][0];
    ReadWritten(k);
    DigitsRead(raw, pos, end, Itoa(k));
  }

  /** Behind a stretch that reads nothing, the scan finds what it finds from its end on. */
  lemma {:induction false} NothingRead(raw: string, pos: nat, end: nat, n: nat)
    requires pos <= end <= |raw| && forall i :: pos <= i < end ==> !ReadsAt(raw, i, n)
    ensures Splices(raw, pos, n) == Splices(raw, end, n)
    decreases end - pos
  {
    if pos < end {
      NothingRead(raw, pos + 1, end, n);
    }
  }

  /** The first place that reads something is found, unless an earlier one is. */
  lemma {:induction false} SomethingRead(raw: string, pos: nat, i: nat, n: nat)
    requires pos <= i < |raw| && ReadsAt(raw, i, n)
    ensures Splices(raw, pos, n) != [] && Splices(raw, pos, n)[0].pos <= i
    decreases i - pos
  {
    if !ReadsAt(raw, pos, n) {
      SomethingRead(raw, pos + 1, i, n);
    }
  }

  lemma {:induction false} SplicesFrom(raw: string, pos: nat, n: nat)
    requires pos <= |raw|
    ensures Splices(raw, pos, n) != [] ==> pos <= Splices(raw, pos, n)[0].pos
    decreases |raw| - pos
  {
    if pos < |raw| && !ReadsAt(raw, pos, n) {
      SplicesFrom(raw, pos + 1, n);
    }
  }

  predicate RefsBelow(ts: seq<Token>, n: nat) {
    forall i :: 0 <= i < |ts| ==> ts[i].Ref? ==> ts[i].k < n
  }

  lemma SplitPrinted(ts: seq<Token>, raw: string, pos: nat)
    requires ts != [] && pos <= |raw| && raw[pos..] == Print(ts)
    ensures var end := pos + |PrintToken(ts[0])|;
            end <= |raw| && raw[pos..end] == PrintToken(ts[0]) && raw[end..] == Print(ts[1..])
  {
    var end := pos + |PrintToken(ts[0])|;
    assert raw[pos..end] == raw[pos..][..end - pos];
    assert raw[end..] == raw[pos..][end - pos..];
  }

  lemma RefIsRead(raw: string, pos: nat, k: nat, n: nat)
    requires pos + |Param(k)| <= |raw| && raw[pos..pos + |Param(k)|] == Param(k) && k < n <= MAX_INT
    ensures var end, found := pos + |Param(k)|, Splices(raw, pos, n);
            if SafeToken(Ref(k), raw, pos, n) then found == [Splice(pos, k, end)] + Splices(raw, end, n)
            else found == [] || found[0] != Splice(pos, k, end)
  {
    hide Param;
    ParamRead(raw, pos, k);
    SplicesFrom(raw, pos + 1, n);
  }

  lemma TextIsPassed(t: Token, raw: string, pos: nat, n: nat)
    requires !t.Ref? && pos + |PrintToken(t)| <= |raw|
    ensures var end, found := pos + |PrintToken(t)|, Splices(raw, pos, n);
            if SafeToken(t, raw, pos, n) then found == Splices(raw, end, n)
            else found != [] && found[0].pos < end
  {
    var end := pos + |PrintToken(t)|;
    if SafeToken(t, raw, pos, n) {
      NothingRead(raw, pos, end, n);
    } else {
      var i :| pos <= i < end && ReadsAt(raw, i, n);
      SomethingRead(raw, pos, i, n);
    }
  }

  /** What the scan finds starts as intended exactly when the first token is safe. */
  lemma {:induction false} HeadDecides(t: Token, rest: seq<Splice>, raw: string, pos: nat, n: nat)
    requires pos + |PrintToken(t)| <= |raw| && raw[pos..pos + |PrintToken(t)|] == PrintToken(t)
    requires (t.Ref? ==> t.k < n) && n <= MAX_INT
    requires forall i :: 0 <= i < |rest| ==> pos + |PrintToken(t)| <= rest[i].pos
    ensures var end := pos + |PrintToken(t)|;
            Splices(raw, pos, n) == (if t.Ref? then [Splice(pos, t.k, end)] else []) + rest
            <==> SafeToken(t, raw, pos, n) && Splices(raw, end, n) == rest
  {
    var end := pos + |PrintToken(t)|;
    if t.Ref? {
      RefIsRead(raw, pos, t.k, n);
    } else {
      TextIsPassed(t, raw, pos, n);
    }
    Combine(t, pos, end, SafeToken(t, raw, pos, n), Splices(raw, pos, n), Splices(raw, end, n), rest);
  }

  /**
   The scan reads the parameters phase one put there, all of them and nothing else, exactly when the template is
   safe.
  */
  lemma {:induction false} ReadsExactlyWhenSafe(ts: seq<Token>, raw: string, pos: nat, n: nat)
    requires pos <= |raw| && raw[pos..] == Print(ts) && RefsBelow(ts, n) && n <= MAX_INT
    ensures Splices(raw, pos, n) == Intended(ts, pos) <==> Safe(ts, raw, pos, n)
    decreases |ts|
  {
    if ts == [] {
      assert raw[pos..] == "";
    } else {
      SplitPrinted(ts, raw, pos);
      var end := pos + |PrintToken(ts[0])|;
      ReadsExactlyWhenSafe(ts[1..], raw, end, n);
      ReadsStep(ts[0], ts, raw, pos, n, end);
    }
  }

  lemma {:induction false} ReadsStep(t: Token, ts: seq<Token>, raw: string, pos: nat, n: nat, end: nat)
    requires ts != [] && ts[0] == t && end == pos + |PrintToken(t)| && end <= |raw| && raw[pos..end] == PrintToken(t)
    requires (t.Ref? ==> t.k < n) && n <= MAX_INT
    requires Splices(raw, end, n) == Intended(ts[1..], end) <==> Safe(ts[1..], raw, end, n)
    ensures Splices(raw, pos, n) == Intended(ts, pos) <==> Safe(ts, raw, pos, n)
  {
    hide PrintToken, Splices, SafeToken;
    var rest := Intended(ts[1..], end);
    assert Intended(ts, pos) == (if t.Ref? then [Splice(pos, t.k, end)] else []) + rest;
    assert Safe(ts, raw, pos, n) == (SafeToken(t, raw, pos, n) && Safe(ts[1..], raw, end, n));
    IntendedFrom(ts[1..], end);
    HeadDecides(t, rest, raw, pos, n);
  }

  /** Two lists that start alike are equal when their rests are. */
  lemma Combine(t: Token, pos: nat, end: nat, safe: bool, found: seq<Splice>, foundRest: seq<Splice>, rest: seq<Splice>)
    requires forall i :: 0 <= i < |rest| ==> end <= rest[i].pos
    requires t.Ref? ==> if safe then found == [Splice(pos, t.k, end)] + foundRest
                        else found == [] || found[0] != Splice(pos, t.k, end)
    requires !t.Ref? ==> if safe then found == foundRest else found != [] && found[0].pos < end
    ensures found == (if t.Ref? then [Splice(pos, t.k, end)] else []) + rest <==> safe && foundRest == rest
  {
    var head := if t.Ref? then [Splice(pos, t.k, end)] else [];
    assert (head + rest)[|head|..] == rest;
    if safe {
      assert found[|head|..] == foundRest;
    }
  }

  // ---------- What the scan writes ----------

  /**
   What a placeholder stands for at the place where it stands: `env` verbatim, `ctx` and `layer` escaped
   for their position, coordinates as numbers.  `query` says whether a question mark has been passed.
  */
  function Output(t: Token, query: bool, v: Values, coords: Coords): string {
    var escape := if query then v.queryEscape else v.pathEscape;
    if OfClass(t, ENV) then v.env(t.name[|ENV|..])
    else if OfClass(t, CTX) then escape(v.ctx(t.name[|CTX|..]))
    else if OfClass(t, LAYER) then escape(v.layer(t.name[|LAYER|..]))
    else PrintToken(FillToken(t, coords))
  }

  predicate IsValue(t: Token) {
    OfClass(t, ENV) || OfClass(t, CTX) || OfClass(t, LAYER)
  }

  function QueryAfter(t: Token, query: bool, coords: Coords): bool {
    query || (!IsValue(t) && '?' in PrintToken(FillToken(t, coords)))
  }

  /** Direct substitution, token by token. */
  function Direct(ts: seq<Token>, query: bool, v: Values, coords: Coords): string {
    if ts == [] then ""
    else Output(ts[0], query, v, coords) + Direct(ts[1..], QueryAfter(ts[0], query, coords), v, coords)
  }

  /** The scan copies a stretch that reads nothing. */
  lemma {:induction false} CopiesText(raw: string, pos: nat, end: nat, job: Job)
    requires pos <= end <= |raw| && forall i :: pos <= i < end ==> !ReadsAt(raw, i, |job.replacements|)
    ensures Scan(raw, pos, job) == raw[pos..end] + Scan(raw, end, job)
    decreases end - pos
  {
    if pos < end {
      CopiesText(raw, pos + 1, end, job);
      assert raw[pos..end] == [raw[pos]] + raw[pos + 1..end];
      assert !ReadsAt(raw, pos, |job.replacements|);
      Regroup([raw[pos]], raw[pos + 1..end], Scan(raw, end, job));
    }
  }

  /** `query` as the scan sees it: a position behind the first question mark of the template. */
  predicate QueryAt(raw: string, pos: nat) {
    Index(raw, "?") >= 0 && pos > Index(raw, "?")
  }

  lemma QueryMeans(raw: string, pos: nat)
    requires pos <= |raw|
    ensures QueryAt(raw, pos) <==> '?' in raw[..pos]
  {
    IndexPresent(raw, '?');
    var q := Index(raw, "?");
    if q >= 0 && pos > q {
      assert raw[..pos][q] == '?';
    }
    if '?' in raw[..pos] {
      var i :| 0 <= i < pos && raw[..pos][i] == '?';
      assert raw[i] == '?';
      assert q >= 0;
      assert forall j :: 0 <= j < q ==> raw[..q][j] == raw[j];
    }
  }

  lemma QueryAdvances(raw: string, pos: nat, end: nat)
    requires pos <= end <= |raw|
    ensures QueryAt(raw, end) <==> QueryAt(raw, pos) || '?' in raw[pos..end]
  {
    QueryMeans(raw, pos);
    QueryMeans(raw, end);
    assert raw[..end] == raw[..pos] + raw[pos..end];
  }
}
