/** How provider templates get their values: placeholders are numbered first, then one scan splices the values in. */
module Placeholders {
  import opened Strings
  import opened Decimal
  import opened TileRequests
  import opened Wrappers

  // ---------- Library operations on strings ----------

  predicate IsBrace(c: char) {
    c == '{' || c == '}'
  }

  predicate BraceFree(s: string) {
    forall i :: 0 <= i < |s| ==> !IsBrace(s[i])
  }

  /** The first brace of `s` from position `i` on, or the end of `s`. */
  function NextBrace(s: string, i: nat): (j: nat)
    requires i <= |s|
    ensures i <= j <= |s| && (j < |s| ==> IsBrace(s[j]))
    ensures forall k :: i <= k < j ==> !IsBrace(s[k])
    decreases |s| - i
  {
    if i == |s| || IsBrace(s[i]) then i else NextBrace(s, i + 1)
  }

  /** The length of the match of `prefix[^{}]*}` at the start of `s`, or 0. */
  function MatchLength(s: string, prefix: string): (n: nat)
    ensures n <= |s|
  {
    if IsAt(s, prefix, 0) then
      var j := NextBrace(s, |prefix|);
      if j < |s| && s[j] == '}' then j + 1 else 0
    else 0
  }

  /** All matches of `prefix[^{}]*}` in `s`, leftmost first and without overlap. */
  function FindAll(s: string, prefix: string): seq<string>
    decreases |s|
  {
    if s == "" then []
    else
      var n := MatchLength(s, prefix);
      if n > 0 then [s[..n]] + FindAll(s[n..], prefix) else FindAll(s[1..], prefix)
  }

  function ReplaceAll(s: string, what: string, with: string): string
    decreases |s|
  {
    var k := Index(s, what);
    if k < 0 || what == "" then s else s[..k] + with + ReplaceAll(s[k + |what|..], what, with)
  }

  // ---------- The values ----------

  /** The bounds of the tile as they are printed. */
  datatype BoundsText = BoundsText(west: string, east: string, south: string, north: string)

  /** What the placeholders stand for, and the two escapers. */
  datatype Values = Values(
    env: string -> string,
    ctx: string -> string,
    layer: string -> string,
    queryEscape: string -> string,
    pathEscape: string -> string)

  /** The coordinate placeholders in the order they are filled in. */
  function Coordinates(r: TileRequest, invertY: bool, b: BoundsText): seq<(string, string)>
    requires r.z >= 0
  {
    var z, x, y := Itoa(r.z), Itoa(r.x), Itoa(if invertY then Exp2(r.z) - r.y - 1 else r.y);
    [("Z", z), ("z", z), ("Y", y), ("y", y), ("X", x), ("x", x),
     ("xmin", b.west), ("xmax", b.east), ("ymin", b.south), ("ymax", b.north)]
  }

  // ---------- The two phases, as functions ----------

  const ENV_PREFIX := "{env."
  const CTX_PREFIX := "{ctx."
  const LAYER_PREFIX := "{layer."

  function Param(i: nat): string {
    "$" + Itoa(i)
  }

  /** The name inside a match. */
  function Inner(found: string, prefix: string): string
    requires |prefix| < |found|
  {
    found[|prefix|..|found| - 1]
  }

  function Numbered(s: string, matches: seq<string>, i: nat): string
    decreases matches
  {
    if matches == [] then s else Numbered(ReplaceOnce(s, matches[0], Param(i)), matches[1..], i + 1)
  }

  function Looked(matches: seq<string>, prefix: string, f: string -> string): seq<string> {
    if matches == [] then []
    else [if |prefix| < |matches[0]| then f(Inner(matches[0], prefix)) else ""] + Looked(matches[1..], prefix, f)
  }

  function Filled(s: string, coords: seq<(string, string)>): string
    decreases coords
  {
    if coords == [] then s else Filled(ReplaceAll(s, "{" + coords[0].0 + "}", coords[0].1), coords[1..])
  }

  /** The string after numbering one class of placeholders, and the values the numbers stand for. */
  function NumberClass(s: string, prefix: string, i: nat, f: string -> string): (string, seq<string>) {
    (Numbered(s, FindAll(s, prefix), i), Looked(FindAll(s, prefix), prefix, f))
  }

  /** The same for a class that comes after others: the values go behind theirs. */
  function NumberNext(done: (string, seq<string>), prefix: string, start: nat, f: string -> string)
    : (string, seq<string>)
  {
    var c := NumberClass(done.0, prefix, start + |done.1|, f);
    (c.0, done.1 + c.1)
  }

  function NumberAll(s: string, start: nat, v: Values): (string, seq<string>) {
    var env := NumberNext((s, []), ENV_PREFIX, start, v.env);
    var ctx := NumberNext(env, CTX_PREFIX, start, v.ctx);
    NumberNext(ctx, LAYER_PREFIX, start, v.layer)
  }

  function DigitsEnd(s: string, i: nat): (j: nat)
    requires i <= |s|
    ensures i <= j <= |s| && AllDigits(s[i..j]) && (j < |s| ==> !IsDigit(s[j]))
    decreases |s| - i
  {
    if i == |s| || !IsDigit(s[i]) then i
    else
      var j := DigitsEnd(s, i + 1);
      assert s[i..j] == [s[i]] + s[i + 1..j];
      j
  }

  const MAX_INT := 0x7FFF_FFFF_FFFF_FFFF

  /** `strconv.Atoi` on a run of digits: no digits and too large a number are errors. */
  function Atoi(s: string): int
    requires AllDigits(s)
  {
    if s == "" || NatValue(s) > MAX_INT then -1 else NatValue(s)
  }

  /** What the scan needs to know besides the string. */
  datatype Job = Job(replacements: seq<string>, envCount: nat, queryStart: int, values: Values)

  function Inserted(job: Job, idx: nat, pos: nat): string
    requires idx < |job.replacements|
  {
    var value := job.replacements[idx];
    if idx < job.envCount then value
    else if job.queryStart >= 0 && pos > job.queryStart then job.values.queryEscape(value)
    else job.values.pathEscape(value)
  }

  /** What the scan writes from position `pos` of the template on. */
  function Scan(raw: string, pos: nat, job: Job): string
    requires pos <= |raw|
    decreases |raw| - pos
  {
    if pos == |raw| then ""
    else if raw[pos] != '$' then [raw[pos]] + Scan(raw, pos + 1, job)
    else
      var j := DigitsEnd(raw, pos + 1);
      var idx := Atoi(raw[pos + 1..j]);
      if 0 <= idx < |job.replacements| then Inserted(job, idx, pos) + Scan(raw, j, job)
      else "$" + Scan(raw, pos + 1, job)
  }

  // ---------- The program ----------

  /** The loop over the matches of one class, which each of the three classes runs. */
  method NumberMatches(s: string, matches: seq<string>, prefix: string, start: nat, f: string -> string)
    returns (str: string, replacements: seq<string>)
    requires forall i :: 0 <= i < |matches| ==> |prefix| < |matches[i]|
    ensures str == Numbered(s, matches, start) && replacements == Looked(matches, prefix, f)
  {
    str, replacements := s, [];
    var paramIndex := start;
    for i := 0 to |matches|
      invariant paramIndex == start + i
      invariant Numbered(str, matches[i..], paramIndex) == Numbered(s, matches, start)
      invariant replacements + Looked(matches[i..], prefix, f) == Looked(matches, prefix, f)
    {
      ghost var rest := matches[i..];
      assert rest[0] == matches[i] && rest[1..] == matches[i + 1..];
      Regroup(replacements, [f(Inner(matches[i], prefix))], Looked(rest[1..], prefix, f));
      replacements := replacements + [f(Inner(matches[i], prefix))];
      str := ReplaceOnce(str, matches[i], Param(paramIndex));
      paramIndex := paramIndex + 1;
    }
    assert matches[|matches|..] == [] && replacements + [] == replacements;
  }

  lemma Regroup<T>(a: seq<T>, b: seq<T>, c: seq<T>)
    ensures a + (b + c) == (a + b) + c
  {
  }

  method NumberOneClass(s: string, before: seq<string>, prefix: string, start: nat, f: string -> string)
    returns (str: string, replacements: seq<string>)
    ensures (str, replacements) == NumberNext((s, before), prefix, start, f)
  {
    str, replacements := s, before;
    if Index(s, prefix) >= 0 {
      var matches := FindAll(s, prefix);
      forall i | 0 <= i < |matches| ensures |prefix| < |matches[i]| {
        MatchesAreLong(s, prefix, i);
      }
      var more;
      str, more := NumberMatches(s, matches, prefix, start + |before|, f);
      replacements := before + more;
    } else {
      NothingToFind(s, prefix);
      assert before + [] == before;
    }
  }

  lemma {:induction false} MatchesAreLong(s: string, prefix: string, i: nat)
    requires i < |FindAll(s, prefix)|
    ensures |prefix| < |FindAll(s, prefix)[i]|
    decreases |s|
  {
    var n := MatchLength(s, prefix);
    if n == 0 {
      MatchesAreLong(s[1..], prefix, i);
    } else if i > 0 {
      MatchesAreLong(s[n..], prefix, i - 1);
    }
  }

  /** Where the prefix does not occur there is no match: the test before each loop only saves work. */
  lemma {:induction false} NothingToFind(s: string, prefix: string)
    requires Index(s, prefix) < 0
    ensures FindAll(s, prefix) == []
    decreases |s|
  {
    if s != "" {
      assert !IsAt(s, prefix, 0);
      forall j | IsAt(s[1..], prefix, j) ensures IsAt(s, prefix, j + 1) {
        assert s[1..][j..j + |prefix|] == s[j + 1..j + 1 + |prefix|];
      }
      NothingToFind(s[1..], prefix);
    }
  }

  method NumberEveryClass(s: string, start: nat, v: Values) returns (str: string, replacements: seq<string>)
    ensures (str, replacements) == NumberAll(s, start, v)
  {
    str, replacements := NumberOneClass(s, [], ENV_PREFIX, start, v.env);
    str, replacements := NumberOneClass(str, replacements, CTX_PREFIX, start, v.ctx);
    str, replacements := NumberOneClass(str, replacements, LAYER_PREFIX, start, v.layer);
  }

  method FillCoordinates(s: string, coords: seq<(string, string)>) returns (str: string)
    ensures str == Filled(s, coords)
  {
    str := s;
    for i := 0 to |coords|
      invariant Filled(str, coords[i..]) == Filled(s, coords)
    {
      str := ReplaceAll(str, "{" + coords[i].0 + "}", coords[i].1);
      assert coords[i..][1..] == coords[i + 1..];
    }
  }

  method ReplacePlaceholdersInString(r: TileRequest, s: string, startParamIndex: nat, invertY: bool, srid: nat,
                                     b: BoundsText, v: Values)
    returns (result: Result<(string, seq<string>)>)
    ensures result.Ok? <==>
              && 0 <= r.z <= 21 && 0 <= r.x < Exp2(r.z) && 0 <= r.y < Exp2(r.z) && srid in {4326, 3857}
    ensures result.Ok? ==>
              var n := NumberAll(s, startParamIndex, v);
              result.value == (Filled(n.0, Coordinates(r, invertY, b)), n.1)
  {
    if !InRange(r, srid) {
      return Error("tile or projection out of range");
    }
    var numbered, replacements := NumberEveryClass(s, startParamIndex, v);
    var str := FillCoordinates(numbered, Coordinates(r, invertY, b));
    return Ok((str, replacements));
  }

  method SkipDigits(s: string, i: nat) returns (j: nat)
    requires i <= |s|
    ensures j == DigitsEnd(s, i)
  {
    j := i;
    while j < |s| && IsDigit(s[j])
      invariant i <= j <= |s| && DigitsEnd(s, i) == DigitsEnd(s, j)
    {
      j := j + 1;
    }
  }

  method SpliceValues(url: string, job: Job) returns (out: string)
    ensures out == Scan(url, 0, job)
  {
    out := "";
    var i := 0;
    while i < |url|
      invariant i <= |url| && out + Scan(url, i, job) == Scan(url, 0, job)
    {
      if url[i] != '$' {
        Regroup(out, [url[i]], Scan(url, i + 1, job));
        out := out + [url[i]];
        i := i + 1;
      } else {
        var j := SkipDigits(url, i + 1);
        var idx := Atoi(url[i + 1..j]);
        if idx < 0 || idx >= |job.replacements| {
          Regroup(out, "$", Scan(url, i + 1, job));
          out := out + "$";
          i := i + 1;
        } else {
          Regroup(out, Inserted(job, idx, i), Scan(url, j, job));
          out := out + Inserted(job, idx, i);
          i := j;
        }
      }
    }
  }

  method ReplaceURLPlaceholders(r: TileRequest, rawURL: string, invertY: bool, srid: nat, b: BoundsText, v: Values)
    returns (result: Result<string>)
    ensures result.Ok? <==>
              && 0 <= r.z <= 21 && 0 <= r.x < Exp2(r.z) && 0 <= r.y < Exp2(r.z) && srid in {4326, 3857}
    ensures result.Ok? ==> result.value == Rewritten(r, rawURL, invertY, b, v)
  {
    var envCount := |FindAll(rawURL, ENV_PREFIX)|;
    var first := ReplacePlaceholdersInString(r, rawURL, 0, invertY, srid, b, v);
    if first.Error? {
      return Error(first.message);
    }
    var (url, replacements) := first.value;
    var out := SpliceValues(url, Job(replacements, envCount, Index(url, "?"), v));
    return Ok(out);
  }

  /** Both phases together. */
  function Rewritten(r: TileRequest, rawURL: string, invertY: bool, b: BoundsText, v: Values): string
    requires r.z >= 0
  {
    var n := NumberAll(rawURL, 0, v);
    var url := Filled(n.0, Coordinates(r, invertY, b));
    Scan(url, 0, Job(n.1, |FindAll(rawURL, ENV_PREFIX)|, Index(url, "?"), v))
  }
}
