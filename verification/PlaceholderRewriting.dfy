/** Two-phase rewriting is direct substitution exactly when the numbered template is safe. */
module PlaceholderRewriting {
  import opened Strings
  import opened Decimal
  import opened TileRequests
  import opened Placeholders
  import opened PlaceholderTokens
  import opened PlaceholderTheorems
  import opened PlaceholderSplicing

  // ---------- The values behind the numbers ----------

  predicate Holds(values: seq<string>, at: nat, part: seq<string>) {
    at + |part| <= |values| && values[at..at + |part|] == part
  }

  lemma HoldsStep(values: seq<string>, at: nat, x: string, rest: seq<string>)
    requires Holds(values, at, [x] + rest)
    ensures at < |values| && values[at] == x && Holds(values, at + 1, rest)
  {
    var part := [x] + rest;
    assert values[at] == values[at..at + |part|][0];
    assert part[1..] == rest && values[at..at + |part|][1..] == values[at + 1..at + |part|];
  }

  /** The counters point at the values of the placeholders that are still to come. */
  predicate Ready(ts: seq<Token>, n: Counters, job: Job) {
    && Holds(job.replacements, n.env, ClassValues(ts, ENV, job.values.env))
    && Holds(job.replacements, n.ctx, ClassValues(ts, CTX, job.values.ctx))
    && Holds(job.replacements, n.layer, ClassValues(ts, LAYER, job.values.layer))
    && n.env + |ClassValues(ts, ENV, job.values.env)| <= job.envCount <= n.ctx
    && job.envCount <= n.layer
  }

  lemma {:induction false} ClassStep(values: seq<string>, at: nat, ts: seq<Token>, cls: string, f: string -> string)
    requires ts != [] && Holds(values, at, ClassValues(ts, cls, f))
    ensures OfClass(ts[0], cls) ==> at < |values| && values[at] == f(ts[0].name[|cls|..])
    ensures Holds(values, if OfClass(ts[0], cls) then at + 1 else at, ClassValues(ts[1..], cls, f))
    ensures |ClassValues(ts, cls, f)| == |ClassValues(ts[1..], cls, f)| + if OfClass(ts[0], cls) then 1 else 0
  {
    var rest := ClassValues(ts[1..], cls, f);
    if OfClass(ts[0], cls) {
      assert ClassValues(ts, cls, f) == [f(ts[0].name[|cls|..])] + rest;
      hide ClassValues;
      HoldsStep(values, at, f(ts[0].name[|cls|..]), rest);
    } else {
      assert ClassValues(ts, cls, f) == [] + rest == rest;
    }
  }

  lemma ClassesDiffer(t: Token)
    ensures !(OfClass(t, ENV) && OfClass(t, CTX)) && !(OfClass(t, ENV) && OfClass(t, LAYER))
            && !(OfClass(t, CTX) && OfClass(t, LAYER))
  {
    assert forall cls :: OfClass(t, cls) && cls != "" ==> t.name[0] == cls[0];
  }

  /** The parameter of a placeholder stands for its value, escaped as its class demands. */
  lemma {:induction false} ReadyStep(ts: seq<Token>, n: Counters, job: Job, coords: Coords, pos: nat, query: bool)
    requires ts != [] && Ready(ts, n, job) && query == (job.queryStart >= 0 && pos > job.queryStart)
    ensures Ready(ts[1..], Advance(ts[0], n), job)
    ensures IsValue(ts[0]) ==>
              var t := FinalToken(ts[0], n, coords);
              t.Ref? && t.k < |job.replacements| && Inserted(job, t.k, pos) == Output(ts[0], query, job.values, coords)
  {
    hide Holds, ClassValues, OfClass;
    ClassStep(job.replacements, n.env, ts, ENV, job.values.env);
    ClassStep(job.replacements, n.ctx, ts, CTX, job.values.ctx);
    ClassStep(job.replacements, n.layer, ts, LAYER, job.values.layer);
    ClassesDiffer(ts[0]);
    OnlyBraces(ts[0]);
  }

  lemma OnlyBraces(t: Token)
    ensures forall cls :: OfClass(t, cls) ==> t.Brace? && |cls| <= |t.name|
  {
  }

  // ---------- The scan on a safe token ----------

  predicate IsPlain(t: Token) {
    !t.Ref?
  }

  lemma {:induction false} SplicesParam(raw: string, pos: nat, k: nat, job: Job)
    requires pos + |Param(k)| <= |raw| && raw[pos..pos + |Param(k)|] == Param(k)
    requires k < |job.replacements| <= MAX_INT && SafeToken(Ref(k), raw, pos, |job.replacements|)
    ensures Scan(raw, pos, job) == Inserted(job, k, pos) + Scan(raw, pos + |Param(k)|, job)
  {
    hide Param, Inserted;
    ParamRead(raw, pos, k);
  }

  lemma ParamHasNoQuery(k: nat)
    ensures '?' !in Param(k)
  {
    ParamIsBraceFree(k);
    assert forall i :: 1 <= i < |Param(k)| ==> Param(k)[i] == Itoa(k)[i - 1];
  }

  /** On a safe token the scan writes what the token stands for. */
  lemma {:induction false} ScanStep(ts: seq<Token>, n: Counters, raw: string, pos: nat, end: nat, job: Job,
                                    coords: Coords)
    requires ts != [] && IsPlain(ts[0]) && Ready(ts, n, job) && job.queryStart == Index(raw, "?")
    requires |job.replacements| <= MAX_INT && end == pos + |PrintToken(FinalToken(ts[0], n, coords))| <= |raw|
    requires raw[pos..end] == PrintToken(FinalToken(ts[0], n, coords))
    requires SafeToken(FinalToken(ts[0], n, coords), raw, pos, |job.replacements|)
    ensures Scan(raw, pos, job) == Output(ts[0], QueryAt(raw, pos), job.values, coords) + Scan(raw, end, job)
    ensures QueryAt(raw, end) == QueryAfter(ts[0], QueryAt(raw, pos), coords)
    ensures Ready(ts[1..], Advance(ts[0], n), job)
  {
    hide Scan, ClassValues, DigitsEnd;
    var t := FinalToken(ts[0], n, coords);
    ReadyStep(ts, n, job, coords, pos, QueryAt(raw, pos));
    QueryAdvances(raw, pos, end);
    if IsValue(ts[0]) {
      SplicesParam(raw, pos, t.k, job);
      ParamHasNoQuery(t.k);
    } else {
      FilledIsNoRef(ts[0], coords);
      CopiesText(raw, pos, end, job);
    }
  }

  lemma {:induction false} FilledIsNoRef(t: Token, coords: Coords)
    requires !t.Ref?
    ensures !FillToken(t, coords).Ref?
  {
    if t.Brace? {
      LookupIsNoRef(coords, t.name);
    }
  }

  lemma {:induction false} LookupIsNoRef(coords: Coords, n: string)
    ensures !LookupText(coords, n).Ref?
  {
    if coords != [] {
      LookupIsNoRef(coords[1..], n);
    }
  }

  predicate Plain(ts: seq<Token>) {
    forall i :: 0 <= i < |ts| ==> IsPlain(ts[i])
  }

  lemma {:induction false} FinalStep(ts: seq<Token>, n: Counters, coords: Coords, raw: string, pos: nat, m: nat)
    requires ts != [] && Plain(ts)
    ensures IsPlain(ts[0]) && Plain(ts[1..])
    ensures Final(ts, n, coords) != [] && Final(ts, n, coords)[0] == FinalToken(ts[0], n, coords)
    ensures Final(ts, n, coords)[1..] == Final(ts[1..], Advance(ts[0], n), coords)
    ensures var t, rest := FinalToken(ts[0], n, coords), Final(ts[1..], Advance(ts[0], n), coords);
            Safe(Final(ts, n, coords), raw, pos, m) ==
            (SafeToken(t, raw, pos, m) && Safe(rest, raw, pos + |PrintToken(t)|, m))
  {
    hide FinalToken, PrintToken, SafeToken;
  }

  lemma {:induction false} AtTheEnd(ts: seq<Token>, n: Counters, raw: string, pos: nat, job: Job, coords: Coords)
    requires ts == [] && pos <= |raw| && raw[pos..] == Print(Final(ts, n, coords))
    ensures pos == |raw| && Scan(raw, pos, job) == "" && forall query :: Direct(ts, query, job.values, coords) == ""
  {
    assert raw[pos..] == "";
  }

  lemma {:induction false} DirectStep(ts: seq<Token>, query: bool, v: Values, coords: Coords)
    requires ts != []
    ensures Direct(ts, query, v, coords)
            == Output(ts[0], query, v, coords) + Direct(ts[1..], QueryAfter(ts[0], query, coords), v, coords)
  {
    hide Output, QueryAfter;
  }

  /** On a safe template the scan is direct substitution. */
  lemma {:induction false} ScanIsDirect(ts: seq<Token>, n: Counters, raw: string, pos: nat, job: Job, coords: Coords)
    requires Plain(ts) && Ready(ts, n, job) && job.queryStart == Index(raw, "?") && |job.replacements| <= MAX_INT
    requires pos <= |raw| && raw[pos..] == Print(Final(ts, n, coords))
    requires Safe(Final(ts, n, coords), raw, pos, |job.replacements|)
    ensures Scan(raw, pos, job) == Direct(ts, QueryAt(raw, pos), job.values, coords)
    decreases |ts|
  {
    hide *;
    if ts == [] {
      AtTheEnd(ts, n, raw, pos, job, coords);
    } else {
      DirectStep(ts, QueryAt(raw, pos), job.values, coords);
      var final := Final(ts, n, coords);
      FinalStep(ts, n, coords, raw, pos, |job.replacements|);
      var end := pos + |PrintToken(final[0])|;
      SplitPrinted(final, raw, pos);
      ScanStep(ts, n, raw, pos, end, job, coords);
      ScanIsDirect(ts[1..], Advance(ts[0], n), raw, end, job, coords);
    }
  }

  // ---------- Unsafe templates ----------

  type Escaper = string -> string

  /** A character that can mark where values go: the scan reads nothing into it, and both escapers leave it alone. */
  ghost predicate CanMark(c: char, query: Escaper, path: Escaper) {
    c != '$' && !IsDigit(c) && query([c]) == [c] && path([c]) == [c]
  }

  /** Every placeholder stands for the mark; the escapers are what they are. */
  function Marking(c: char, query: Escaper, path: Escaper): Values {
    Values(_ => [c], _ => [c], _ => [c], query, path)
  }

  /** A scan that splices marks into a template. */
  ghost predicate Marked(job: Job, c: char) {
    && CanMark(c, job.values.queryEscape, job.values.pathEscape)
    && job.values == Marking(c, job.values.queryEscape, job.values.pathEscape)
    && forall i :: 0 <= i < |job.replacements| ==> job.replacements[i] == [c]
  }

  lemma {:induction false} OutputMarks(t: Token, query: bool, job: Job, c: char, coords: Coords)
    requires IsValue(t) && Marked(job, c)
    ensures Output(t, query, job.values, coords) == [c]
  {
  }

  lemma {:induction false} MarkInserted(raw: string, pos: nat, job: Job, c: char)
    requires pos < |raw| && ReadsAt(raw, pos, |job.replacements|) && Marked(job, c)
    ensures Scan(raw, pos, job) == [c] + Scan(raw, DigitsEnd(raw, pos + 1), job)
  {
    assert Inserted(job, IndexAt(raw, pos), pos) == [c];
  }

  /** The scan inserts a mark at the first place that reads something. */
  lemma {:induction false} ScanMarks(raw: string, pos: nat, i: nat, job: Job, c: char) returns (m: nat)
    requires pos <= i < |raw| && ReadsAt(raw, i, |job.replacements|) && Marked(job, c)
    ensures pos <= m <= i && m - pos < |Scan(raw, pos, job)| && Scan(raw, pos, job)[m - pos] == c && raw[m] == '$'
    decreases i - pos
  {
    hide Scan, DigitsEnd, IndexAt;
    if ReadsAt(raw, pos, |job.replacements|) {
      m := pos;
      MarkInserted(raw, pos, job, c);
    } else {
      m := ScanMarks(raw, pos + 1, i, job, c);
      CopiesText(raw, pos, pos + 1, job);
      assert Scan(raw, pos, job)[m - pos] == Scan(raw, pos + 1, job)[m - (pos + 1)];
    }
  }

  /** What stands at `pos` is a digit only if direct substitution writes it there. */
  lemma {:induction false} DirectWritesDigit(ts: seq<Token>, n: Counters, raw: string, pos: nat, query: bool,
                                             v: Values, coords: Coords)
    requires Plain(ts) && pos < |raw| && raw[pos..] == Print(Final(ts, n, coords)) && IsDigit(raw[pos])
    ensures Direct(ts, query, v, coords) != "" && Direct(ts, query, v, coords)[0] == raw[pos]
    decreases |ts|
  {
    hide *;
    if ts == [] {
      AtTheEnd(ts, n, raw, pos, Job([], 0, -1, v), coords);
    } else {
      FinalStep(ts, n, coords, raw, pos, 0);
      DirectStep(ts, query, v, coords);
      var final := Final(ts, n, coords);
      var end := pos + |PrintToken(final[0])|;
      SplitPrinted(final, raw, pos);
      DigitIsText(ts[0], n, coords, raw, pos, end, query, v);
      if end == pos {
        DirectWritesDigit(ts[1..], Advance(ts[0], n), raw, pos, QueryAfter(ts[0], query, coords), v, coords);
      } else {
        assert raw[pos] == raw[pos..end][0];
      }
    }
  }

  lemma {:induction false} DigitIsText(t: Token, n: Counters, coords: Coords, raw: string, pos: nat, end: nat,
                                       query: bool, v: Values)
    requires pos < |raw| && pos <= end <= |raw| && raw[pos..end] == PrintToken(FinalToken(t, n, coords))
             && IsDigit(raw[pos])
    ensures Output(t, query, v, coords) == raw[pos..end]
  {
    assert pos < end ==> raw[pos] == raw[pos..end][0];
    ValueStartsWithDollar(t, n, coords);
  }

  lemma {:induction false} ValueStartsWithDollar(t: Token, n: Counters, coords: Coords)
    ensures IsValue(t) ==> PrintToken(FinalToken(t, n, coords)) != "" && PrintToken(FinalToken(t, n, coords))[0] == '$'
  {
    if IsValue(t) {
      ParamIsBraceFree(FinalToken(t, n, coords).k);
    }
  }

  lemma {:induction false} ScanKeepsNonDigit(raw: string, pos: nat, job: Job, c: char)
    requires pos <= |raw| && (pos < |raw| ==> !IsDigit(raw[pos])) && Marked(job, c)
    ensures Scan(raw, pos, job) == "" || !IsDigit(Scan(raw, pos, job)[0])
  {
    if pos < |raw| && ReadsAt(raw, pos, |job.replacements|) {
      assert Inserted(job, IndexAt(raw, pos), pos) == [c];
    }
  }

  /** A parameter that runs into a digit is lost or swallows the digit. */
  lemma {:induction false} ParamRunsOn(raw: string, pos: nat, k: nat, job: Job, c: char, rest: string)
    requires pos + |Param(k)| <= |raw| && raw[pos..pos + |Param(k)|] == Param(k) && k < |job.replacements| <= MAX_INT
    requires !SafeToken(Ref(k), raw, pos, |job.replacements|) && Marked(job, c)
    requires rest != "" && IsDigit(rest[0])
    ensures Scan(raw, pos, job) != [c] + rest
  {
    hide Param, SafeToken;
    ParamRead(raw, pos, k);
    var j := DigitsEnd(raw, pos + 1);
    ScanKeepsNonDigit(raw, j, job, c);
    if ReadsAt(raw, pos, |job.replacements|) {
      MarkInserted(raw, pos, job, c);
      SameTail([c], Scan(raw, j, job), rest);
    } else {
      assert Scan(raw, pos, job)[0] == '$';
    }
  }

  lemma SameTail(a: string, b: string, c: string)
    ensures a + b == a + c <==> b == c
  {
    assert (a + b)[|a|..] == b && (a + c)[|a|..] == c;
  }

  lemma TailsDiffer(a: string, b: string, c: string)
    requires b != c
    ensures a + b != a + c
  {
    SameTail(a, b, c);
  }

  /** A dollar sign that reads a value is text for direct substitution. */
  lemma {:induction false} TextIsRead(raw: string, pos: nat, end: nat, job: Job, c: char, rest: string)
    requires pos <= end <= |raw| && Marked(job, c)
    requires exists i :: pos <= i < end && ReadsAt(raw, i, |job.replacements|)
    ensures Scan(raw, pos, job) != raw[pos..end] + rest
  {
    var i :| pos <= i < end && ReadsAt(raw, i, |job.replacements|);
    hide Scan, ReadsAt;
    var m := ScanMarks(raw, pos, i, job, c);
    assert (raw[pos..end] + rest)[m - pos] == raw[m];
  }

  /** At the first unsafe token the scan writes something else. */
  lemma {:induction false} UnsafeStep(ts: seq<Token>, n: Counters, raw: string, pos: nat, end: nat, job: Job,
                                      coords: Coords, c: char)
    requires ts != [] && Plain(ts) && Ready(ts, n, job) && |job.replacements| <= MAX_INT && Marked(job, c)
    requires end == pos + |PrintToken(FinalToken(ts[0], n, coords))| <= |raw|
    requires raw[pos..end] == PrintToken(FinalToken(ts[0], n, coords))
    requires raw[end..] == Print(Final(ts[1..], Advance(ts[0], n), coords))
    requires !SafeToken(FinalToken(ts[0], n, coords), raw, pos, |job.replacements|)
    ensures Scan(raw, pos, job) != Direct(ts, QueryAt(raw, pos), job.values, coords)
  {
    hide Scan, DigitsEnd, Final, Print, Direct, Index, ClassValues, Holds, Output;
    var t, q := FinalToken(ts[0], n, coords), QueryAt(raw, pos);
    DirectStep(ts, q, job.values, coords);
    var rest := Direct(ts[1..], QueryAfter(ts[0], q, coords), job.values, coords);
    if IsValue(ts[0]) {
      ReadyStep(ts, n, job.(queryStart := -1), coords, pos, false);
      OutputMarks(ts[0], q, job, c, coords);
      DirectWritesDigit(ts[1..], Advance(ts[0], n), raw, end, QueryAfter(ts[0], q, coords), job.values, coords);
      ParamRunsOn(raw, pos, t.k, job, c, rest);
    } else {
      FilledIsNoRef(ts[0], coords);
      PlainOutput(ts[0], q, job.values, coords);
      TextIsRead(raw, pos, end, job, c, rest);
    }
  }

  lemma {:induction false} PlainOutput(t: Token, query: bool, v: Values, coords: Coords)
    requires !IsValue(t)
    ensures Output(t, query, v, coords) == PrintToken(FillToken(t, coords))
  {
  }

  /** On an unsafe template the marks show that the scan is not direct substitution. */
  lemma {:induction false} ScanDiffers(ts: seq<Token>, n: Counters, raw: string, pos: nat, job: Job,
                                       coords: Coords, c: char)
    requires Plain(ts) && Ready(ts, n, job) && job.queryStart == Index(raw, "?") && |job.replacements| <= MAX_INT
    requires pos <= |raw| && raw[pos..] == Print(Final(ts, n, coords)) && Marked(job, c)
    requires !Safe(Final(ts, n, coords), raw, pos, |job.replacements|)
    ensures Scan(raw, pos, job) != Direct(ts, QueryAt(raw, pos), job.values, coords)
    decreases |ts|
  {
    hide *;
    NothingIsSafe(ts, n, coords, raw, pos, |job.replacements|);
    FinalStep(ts, n, coords, raw, pos, |job.replacements|);
    var final := Final(ts, n, coords);
    var end := pos + |PrintToken(final[0])|;
    SplitPrinted(final, raw, pos);
    if SafeToken(final[0], raw, pos, |job.replacements|) {
      DirectStep(ts, QueryAt(raw, pos), job.values, coords);
      ScanStep(ts, n, raw, pos, end, job, coords);
      ScanDiffers(ts[1..], Advance(ts[0], n), raw, end, job, coords, c);
      TailsDiffer(Output(ts[0], QueryAt(raw, pos), job.values, coords), Scan(raw, end, job),
                  Direct(ts[1..], QueryAt(raw, end), job.values, coords));
    } else {
      UnsafeStep(ts, n, raw, pos, end, job, coords, c);
    }
  }

  lemma {:induction false} NothingIsSafe(ts: seq<Token>, n: Counters, coords: Coords, raw: string, pos: nat, m: nat)
    ensures ts == [] ==> Safe(Final(ts, n, coords), raw, pos, m)
  {
  }

  // ---------- The rewriter as a whole ----------

  predicate BoundsOk(b: BoundsText) {
    BraceFree(b.west) && BraceFree(b.east) && BraceFree(b.south) && BraceFree(b.north)
  }

  lemma CoordinatesOk(r: TileRequest, invertY: bool, b: BoundsText)
    requires r.z >= 0 && BoundsOk(b)
    ensures CoordsOk(Coordinates(r, invertY, b))
  {
    NumberIsBraceFree(r.z);
    NumberIsBraceFree(r.x);
    NumberIsBraceFree(r.y);
    NumberIsBraceFree(Exp2(r.z) - r.y - 1);
  }

  lemma NumberIsBraceFree(n: int)
    ensures BraceFree(Itoa(n))
  {
    var digits := NatText(if n < 0 then -n else n);
    assert n < 0 ==> forall i :: 1 <= i < |Itoa(n)| ==> Itoa(n)[i] == digits[i - 1];
  }

  lemma {:induction false} ValuesCounted(ts: seq<Token>, v: Values)
    ensures |AllValues(ts, v)| == Total(ts)
    ensures |ClassValues(ts, ENV, v.env)| == Starts(ts).ctx
    ensures |ClassValues(ts, ENV, v.env)| + |ClassValues(ts, CTX, v.ctx)| == Starts(ts).layer
  {
    LookedOk(ts, ENV, v.env);
    LookedOk(ts, CTX, v.ctx);
    LookedOk(ts, LAYER, v.layer);
  }

  /** How many placeholders the template has. */
  function Total(ts: seq<Token>): nat {
    CountOf(ts, ENV) + CountOf(ts, CTX) + CountOf(ts, LAYER)
  }

  /** The template after phase one: numbered, and with its coordinates filled in. */
  function NumberedTemplate(ts: seq<Token>, coords: Coords): string {
    Print(Final(ts, Starts(ts), coords))
  }

  function JobOf(ts: seq<Token>, coords: Coords, v: Values): Job {
    Job(AllValues(ts, v), Starts(ts).ctx, Index(NumberedTemplate(ts, coords), "?"), v)
  }

  lemma Sliced(a: seq<string>, b: seq<string>, c: seq<string>)
    ensures Holds(a + b + c, 0, a) && Holds(a + b + c, |a|, b) && Holds(a + b + c, |a| + |b|, c)
  {
  }

  lemma {:induction false} StartsReady(ts: seq<Token>, coords: Coords, v: Values)
    ensures Ready(ts, Starts(ts), JobOf(ts, coords, v))
  {
    ValuesCounted(ts, v);
    Sliced(ClassValues(ts, ENV, v.env), ClassValues(ts, CTX, v.ctx), ClassValues(ts, LAYER, v.layer));
  }

  lemma {:induction false} RewrittenIsScan(ts: seq<Token>, r: TileRequest, invertY: bool, b: BoundsText, v: Values)
    requires TokensOk(ts) && r.z >= 0 && BoundsOk(b)
    ensures var coords := Coordinates(r, invertY, b);
            Rewritten(r, Print(ts), invertY, b, v) == Scan(NumberedTemplate(ts, coords), 0, JobOf(ts, coords, v))
  {
    hide Scan, Filled, NumberAll, AllValues, Final, FindAll, Found, Index, CountOf;
    CoordinatesOk(r, invertY, b);
    PhaseOneOk(ts, v, Coordinates(r, invertY, b));
    PrefixesAreClasses();
    FindAllOk(ts, ENV);
    LookedOk(ts, ENV, v.env);
  }

  /** The condition a template author can check: no placeholder runs into a digit, no other `$` into a number. */
  predicate SafeTemplate(ts: seq<Token>, coords: Coords) {
    Safe(Final(ts, Starts(ts), coords), NumberedTemplate(ts, coords), 0, Total(ts))
  }

  /**
   On a safe template, two-phase rewriting substitutes every placeholder where it stands, whatever the values
   contain.
  */
  lemma {:induction false} RewritingIsDirect(ts: seq<Token>, r: TileRequest, invertY: bool, b: BoundsText, v: Values)
    requires TokensOk(ts) && Plain(ts) && r.z >= 0 && BoundsOk(b) && Total(ts) <= MAX_INT
    requires SafeTemplate(ts, Coordinates(r, invertY, b))
    ensures Rewritten(r, Print(ts), invertY, b, v) == Direct(ts, false, v, Coordinates(r, invertY, b))
  {
    var coords := Coordinates(r, invertY, b);
    RewrittenIsScan(ts, r, invertY, b, v);
    StartsReady(ts, coords, v);
    ValuesCounted(ts, v);
    var raw := NumberedTemplate(ts, coords);
    assert raw[0..] == raw;
    hide Rewritten, Scan, Direct, Final, Print, Safe, Ready, AllValues, Coordinates, Index, CountOf;
    ScanIsDirect(ts, Starts(ts), raw, 0, JobOf(ts, coords, v), coords);
  }

  /** On an unsafe template it does not, whatever the escapers: some values show it. */
  lemma {:induction false} RewritingDiffers(ts: seq<Token>, r: TileRequest, invertY: bool, b: BoundsText,
                                            c: char, query: Escaper, path: Escaper)
    requires TokensOk(ts) && Plain(ts) && r.z >= 0 && BoundsOk(b) && Total(ts) <= MAX_INT
    requires !SafeTemplate(ts, Coordinates(r, invertY, b)) && CanMark(c, query, path)
    ensures var v := Marking(c, query, path);
            Rewritten(r, Print(ts), invertY, b, v) != Direct(ts, false, v, Coordinates(r, invertY, b))
  {
    var coords, v := Coordinates(r, invertY, b), Marking(c, query, path);
    RewrittenIsScan(ts, r, invertY, b, v);
    StartsReady(ts, coords, v);
    ValuesCounted(ts, v);
    var raw := NumberedTemplate(ts, coords);
    assert raw[0..] == raw;
    MarkedJob(ts, coords, c, query, path);
    hide Rewritten, Scan, Direct, Final, Print, Safe, Ready, AllValues, Coordinates, Marked, Index, CountOf;
    ScanDiffers(ts, Starts(ts), raw, 0, JobOf(ts, coords, v), coords, c);
  }

  lemma {:induction false} MarkedJob(ts: seq<Token>, coords: Coords, c: char, query: Escaper, path: Escaper)
    requires CanMark(c, query, path)
    ensures Marked(JobOf(ts, coords, Marking(c, query, path)), c)
  {
    hide Final, Print, ClassValues;
    var v := Marking(c, query, path);
    MarksOf(ts, ENV, v.env, c);
    MarksOf(ts, CTX, v.ctx, c);
    MarksOf(ts, LAYER, v.layer, c);
  }

  lemma {:induction false} MarksOf(ts: seq<Token>, cls: string, f: string -> string, c: char)
    requires forall s :: f(s) == [c]
    ensures forall i :: 0 <= i < |ClassValues(ts, cls, f)| ==> ClassValues(ts, cls, f)[i] == [c]
  {
    if ts != [] {
      MarksOf(ts[1..], cls, f, c);
    }
  }

  /**
   With the escapers fixed, rewriting means direct substitution for all values of the placeholders alike
   exactly when the template is safe.  `c` is any character the escapers leave alone, such as a letter.
  */
  lemma {:induction false} DirectExactlyWhenSafe(ts: seq<Token>, r: TileRequest, invertY: bool, b: BoundsText,
                                                 c: char, query: Escaper, path: Escaper)
    requires TokensOk(ts) && Plain(ts) && r.z >= 0 && BoundsOk(b) && Total(ts) <= MAX_INT
    requires CanMark(c, query, path)
    ensures SafeTemplate(ts, Coordinates(r, invertY, b)) <==>
            forall env: string -> string, ctx: string -> string, layer: string -> string ::
              RewritesDirectly(ts, r, invertY, b, Values(env, ctx, layer, query, path))
  {
    hide SafeTemplate, Coordinates, Rewritten, Direct, Print;
    if SafeTemplate(ts, Coordinates(r, invertY, b)) {
      forall env: string -> string, ctx: string -> string, layer: string -> string
        ensures RewritesDirectly(ts, r, invertY, b, Values(env, ctx, layer, query, path))
      {
        RewritingIsDirect(ts, r, invertY, b, Values(env, ctx, layer, query, path));
      }
    } else {
      RewritingDiffers(ts, r, invertY, b, c, query, path);
      var v := Marking(c, query, path);
      assert !RewritesDirectly(ts, r, invertY, b, Values(v.env, v.ctx, v.layer, query, path));
    }
  }

  ghost predicate RewritesDirectly(ts: seq<Token>, r: TileRequest, invertY: bool, b: BoundsText, v: Values)
    requires r.z >= 0
  {
    Rewritten(r, Print(ts), invertY, b, v) == Direct(ts, false, v, Coordinates(r, invertY, b))
  }

  /** A digit directly behind a placeholder makes a template unsafe: `{env.A}1` becomes `$01`. */
  lemma DigitBehindPlaceholder(coords: Coords)
    ensures !SafeTemplate([Brace("env.A"), Text("1")], coords)
  {
    var ts, n := [Brace("env.A"), Text("1")], Starts([Brace("env.A"), Text("1")]);
    assert OfClass(ts[0], ENV) && ts[1..] == [Text("1")];
    var final := Final(ts, n, coords);
    assert Final([Text("1")], Advance(ts[0], n), coords)
        == [Text("1")] + Final([], Advance(Text("1"), Advance(ts[0], n)), coords);
    assert final == [Ref(0)] + [Text("1")] && final[1..] == [Text("1")];
    assert Print(final) == Param(0) + Print([Text("1")]) && Print([Text("1")]) == "1" + "";
    assert Print(final)[|Param(0)|] == '1';
  }

  /** So does a literal dollar sign in front of the number of a value: the text `$0` beside any placeholder. */
  lemma LiteralDollarNumber(coords: Coords)
    ensures !SafeTemplate([Text("$0/"), Brace("env.A")], coords)
  {
    var ts := [Text("$0/"), Brace("env.A")];
    assert ts[1..] == [Brace("env.A")] && OfClass(ts[1], ENV);
    assert CountOf([Brace("env.A")], ENV) == 1 && Total(ts) >= 1;
    var final := Final(ts, Starts(ts), coords);
    assert final[0] == Text("$0/");
    var raw := Print(final);
    assert raw[..3] == "$0/";
    assert raw[0] == '$' && raw[1] == '0' && raw[2] == '/';
    assert raw[1..2] == "0";
    DigitsEndIs(raw, 1, 2);
    assert NatValue("0") == 0 by {
      assert "0"[..0] == "";
    }
    assert ReadsAt(raw, 0, Total(ts));
  }
}
