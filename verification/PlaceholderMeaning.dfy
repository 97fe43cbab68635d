/** What a rewritten template says, written down token by token without any of the rewriter's own tables. */
module PlaceholderMeaning {
  import opened Strings
  import opened Decimal
  import opened TileRequests
  import opened Placeholders
  import opened PlaceholderTokens
  import opened PlaceholderTheorems
  import opened PlaceholderSplicing
  import opened PlaceholderRewriting

  /** The row a template is told: that of the request, or the one that together with it counts the grid off. */
  predicate IsRow(r: TileRequest, invertY: bool, row: int)
    requires r.z >= 0
  {
    if invertY then row + r.y == Exp2(r.z) - 1 else row == r.y
  }

  /** There is one such row; it is in the grid for a request in range, and inverting it again gives the row back. */
  lemma RowIsUnique(r: TileRequest, invertY: bool, row: int, other: int)
    requires r.z >= 0 && IsRow(r, invertY, row)
    ensures IsRow(r, invertY, other) <==> other == row
    ensures InRange(r, 4326) ==> 0 <= row < Exp2(r.z)
    ensures IsRow(r.(y := row), invertY, r.y)
  {
  }

  /** A name between braces that is no value: a coordinate, an edge of the tile, or nothing known. */
  function NameText(n: string, z: int, x: int, row: int, b: BoundsText): string {
    if n == "z" || n == "Z" then Itoa(z)
    else if n == "x" || n == "X" then Itoa(x)
    else if n == "y" || n == "Y" then Itoa(row)
    else if n == "xmin" then b.west
    else if n == "xmax" then b.east
    else if n == "ymin" then b.south
    else if n == "ymax" then b.north
    else "{" + n + "}"
  }

  function Escaped(text: string, query: bool, v: Values): string {
    if query then v.queryEscape(text) else v.pathEscape(text)
  }

  function TokenText(t: Token, query: bool, v: Values, z: int, x: int, row: int, b: BoundsText): string {
    match t
    case Text(s) => s
    case Ref(k) => "$" + Itoa(k)
    case Brace(n) =>
      if "env." <= n then v.env(n[4..])
      else if "ctx." <= n then Escaped(v.ctx(n[4..]), query, v)
      else if "layer." <= n then Escaped(v.layer(n[6..]), query, v)
      else NameText(n, z, x, row, b)
  }

  predicate NamesValue(t: Token) {
    t.Brace? && ("env." <= t.name || "ctx." <= t.name || "layer." <= t.name)
  }

  /** The tokens one after the other; values behind a question mark of the template are escaped for a query. */
  function Reading(ts: seq<Token>, query: bool, v: Values, z: int, x: int, row: int, b: BoundsText): string {
    if ts == [] then ""
    else
      var text := TokenText(ts[0], query, v, z, x, row, b);
      text + Reading(ts[1..], query || (!NamesValue(ts[0]) && '?' in text), v, z, x, row, b)
  }

  // ---------- Looking up coordinates ----------

  lemma {:induction false} LookupFinds(coords: Coords, n: string, k: nat)
    requires k < |coords| && coords[k].0 == n && forall j :: 0 <= j < k ==> coords[j].0 != n
    ensures LookupText(coords, n) == Text(coords[k].1)
  {
    if k > 0 {
      LookupFinds(coords[1..], n, k - 1);
    }
  }

  lemma {:induction false} LookupMisses(coords: Coords, n: string)
    requires forall j :: 0 <= j < |coords| ==> coords[j].0 != n
    ensures LookupText(coords, n) == Brace(n)
  {
    if coords != [] {
      LookupMisses(coords[1..], n);
    }
  }

  /** The ten names are different. */
  lemma NamesDiffer(r: TileRequest, invertY: bool, b: BoundsText)
    requires r.z >= 0
    ensures var c := Coordinates(r, invertY, b);
            |c| == 10 && forall i, j :: 0 <= i < j < 10 ==> c[i].0 != c[j].0
  {
    var c := Coordinates(r, invertY, b);
    assert forall i :: 0 <= i < 6 ==> |c[i].0| == 1;
    assert forall i :: 6 <= i < 10 ==> |c[i].0| == 4;
    assert c[0].0[0] == 'Z' && c[1].0[0] == 'z' && c[2].0[0] == 'Y' && c[3].0[0] == 'y' && c[4].0[0] == 'X';
    assert c[5].0[0] == 'x' && c[6].0[0] == 'x' && c[7].0[0] == 'x' && c[8].0[0] == 'y' && c[9].0[0] == 'y';
    assert c[6].0[2] == 'i' && c[7].0[2] == 'a' && c[8].0[2] == 'i' && c[9].0[2] == 'a';
  }

  /** Each entry of the table has the text of its name. */
  lemma EntryIsNameText(r: TileRequest, invertY: bool, b: BoundsText, row: int, k: nat)
    requires r.z >= 0 && IsRow(r, invertY, row) && k < 10
    ensures var c := Coordinates(r, invertY, b); k < |c| && c[k].1 == NameText(c[k].0, r.z, r.x, row, b)
  {
    NamesDiffer(r, invertY, b);
    hide Itoa, Exp2;
  }

  /** The table has the ten names. */
  lemma NamesInTable(n: string, r: TileRequest, invertY: bool, b: BoundsText)
    requires r.z >= 0
    ensures var c := Coordinates(r, invertY, b);
            && |c| == 10 && c[0].0 == "Z" && c[1].0 == "z" && c[2].0 == "Y" && c[3].0 == "y"
            && c[4].0 == "X" && c[5].0 == "x"
            && c[6].0 == "xmin" && c[7].0 == "xmax" && c[8].0 == "ymin" && c[9].0 == "ymax"
  {
  }

  lemma LookupIsNameText(n: string, r: TileRequest, invertY: bool, b: BoundsText, row: int)
    requires r.z >= 0 && IsRow(r, invertY, row)
    ensures PrintToken(LookupText(Coordinates(r, invertY, b), n)) == NameText(n, r.z, r.x, row, b)
  {
    var c := Coordinates(r, invertY, b);
    NamesDiffer(r, invertY, b);
    NamesInTable(n, r, invertY, b);
    hide LookupText, Itoa, Coordinates, IsRow;
    if k :| 0 <= k < 10 && c[k].0 == n {
      LookupFinds(c, n, k);
      EntryIsNameText(r, invertY, b, row, k);
    } else {
      assert c[0].0 != n && c[1].0 != n && c[2].0 != n && c[3].0 != n && c[4].0 != n;
      assert c[5].0 != n && c[6].0 != n && c[7].0 != n && c[8].0 != n && c[9].0 != n;
      LookupMisses(c, n);
    }
  }

  // ---------- The rewriter's substitution is this reading ----------

  lemma TokenTextIsOutput(t: Token, query: bool, r: TileRequest, invertY: bool, b: BoundsText, v: Values, row: int)
    requires IsPlain(t) && r.z >= 0 && IsRow(r, invertY, row)
    ensures var coords := Coordinates(r, invertY, b);
            && Output(t, query, v, coords) == TokenText(t, query, v, r.z, r.x, row, b)
            && QueryAfter(t, query, coords)
               == (query || (!NamesValue(t) && '?' in TokenText(t, query, v, r.z, r.x, row, b)))
  {
    if t.Brace? {
      LookupIsNameText(t.name, r, invertY, b, row);
    }
    hide Coordinates, LookupText, NameText;
  }

  lemma {:induction false} DirectIsReading(ts: seq<Token>, query: bool, r: TileRequest, invertY: bool, b: BoundsText,
                                           v: Values, row: int)
    requires Plain(ts) && r.z >= 0 && IsRow(r, invertY, row)
    ensures Direct(ts, query, v, Coordinates(r, invertY, b)) == Reading(ts, query, v, r.z, r.x, row, b)
  {
    hide Coordinates, Output, TokenText, QueryAfter, NamesValue, IsRow;
    if ts != [] {
      assert IsPlain(ts[0]);
      TokenTextIsOutput(ts[0], query, r, invertY, b, v, row);
      DirectIsReading(ts[1..], QueryAfter(ts[0], query, Coordinates(r, invertY, b)), r, invertY, b, v, row);
    }
  }

  /** A safe template comes out as it reads: each placeholder as what its own name says, whatever the values contain. */
  lemma RewritesAsItReads(ts: seq<Token>, r: TileRequest, invertY: bool, b: BoundsText, v: Values, row: int)
    requires TokensOk(ts) && Plain(ts) && r.z >= 0 && BoundsOk(b) && Total(ts) <= MAX_INT
    requires SafeTemplate(ts, Coordinates(r, invertY, b)) && IsRow(r, invertY, row)
    ensures Rewritten(r, Print(ts), invertY, b, v) == Reading(ts, false, v, r.z, r.x, row, b)
  {
    RewritingIsDirect(ts, r, invertY, b, v);
    DirectIsReading(ts, false, r, invertY, b, v, row);
    hide *;
  }

  // ---------- Templates without a dollar sign ----------

  lemma {:induction false} NothingReadsWithoutDollar(ts: seq<Token>, raw: string, pos: nat, n: nat)
    requires '$' !in raw && pos <= |raw| && raw[pos..] == Print(ts)
    ensures Safe(ts, raw, pos, n)
    decreases |ts|
  {
    if ts != [] {
      SplitPrinted(ts, raw, pos);
      NothingReadsWithoutDollar(ts[1..], raw, pos + |PrintToken(ts[0])|, n);
      NoParameter(ts[0], raw, pos);
    }
  }

  lemma NoParameter(t: Token, raw: string, pos: nat)
    requires '$' !in raw && pos + |PrintToken(t)| <= |raw| && raw[pos..pos + |PrintToken(t)|] == PrintToken(t)
    ensures !t.Ref?
  {
    if t.Ref? {
      ParameterShowsDollar(t.k, raw, pos);
    }
  }

  lemma ParameterShowsDollar(k: nat, raw: string, pos: nat)
    requires pos + |Param(k)| <= |raw| && raw[pos..pos + |Param(k)|] == Param(k)
    ensures '$' in raw
  {
    ParamIsBraceFree(k);
    assert raw[pos] == raw[pos..pos + |Param(k)|][0];
  }

  /** A template that has no dollar sign once it is numbered is safe. */
  lemma WithoutDollarIsSafe(ts: seq<Token>, coords: Coords)
    requires '$' !in NumberedTemplate(ts, coords)
    ensures SafeTemplate(ts, coords)
  {
    var raw := NumberedTemplate(ts, coords);
    assert raw[0..] == raw;
    NothingReadsWithoutDollar(Final(ts, Starts(ts), coords), raw, 0, Total(ts));
  }

  lemma {:induction false} NoValuesCounted(ts: seq<Token>, cls: string)
    requires forall i :: 0 <= i < |ts| ==> !OfClass(ts[i], cls)
    ensures CountOf(ts, cls) == 0
  {
    if ts != [] {
      NoValuesCounted(ts[1..], cls);
    }
  }

  /** A template without values reads as it stands once its coordinates are filled in. */
  lemma {:induction false} FinalIsReading(ts: seq<Token>, n: Counters, query: bool, r: TileRequest, invertY: bool,
                                          b: BoundsText, v: Values, row: int)
    requires Plain(ts) && forall i :: 0 <= i < |ts| ==> !IsValue(ts[i])
    requires r.z >= 0 && IsRow(r, invertY, row)
    ensures Print(Final(ts, n, Coordinates(r, invertY, b))) == Reading(ts, query, v, r.z, r.x, row, b)
  {
    if ts != [] {
      var coords := Coordinates(r, invertY, b);
      hide Coordinates;
      assert IsPlain(ts[0]) && !IsValue(ts[0]);
      TokenTextIsOutput(ts[0], query, r, invertY, b, v, row);
      var query' := query || (!NamesValue(ts[0]) && '?' in TokenText(ts[0], query, v, r.z, r.x, row, b));
      FinalIsReading(ts[1..], Advance(ts[0], n), query', r, invertY, b, v, row);
      PrintCons(FinalToken(ts[0], n, coords), Final(ts[1..], Advance(ts[0], n), coords));
      hide PrintToken, TokenText, LookupText;
    }
  }

  /** A template of coordinates alone comes out as it reads, unless what it reads has a dollar sign. */
  lemma CoordinateTemplateReads(ts: seq<Token>, r: TileRequest, invertY: bool, b: BoundsText, v: Values, row: int)
    requires TokensOk(ts) && Plain(ts) && BoundsOk(b) && r.z >= 0 && IsRow(r, invertY, row)
    requires forall i :: 0 <= i < |ts| ==> !NamesValue(ts[i])
    requires '$' !in Reading(ts, false, v, r.z, r.x, row, b)
    ensures Rewritten(r, Print(ts), invertY, b, v) == Reading(ts, false, v, r.z, r.x, row, b)
  {
    NoValues(ts);
    NoValuesCounted(ts, ENV);
    NoValuesCounted(ts, CTX);
    NoValuesCounted(ts, LAYER);
    FinalIsReading(ts, Starts(ts), false, r, invertY, b, v, row);
    WithoutDollarIsSafe(ts, Coordinates(r, invertY, b));
    hide Rewritten, Print, Reading, Coordinates, Itoa, SafeTemplate;
    RewritesAsItReads(ts, r, invertY, b, v, row);
  }

  lemma NoValues(ts: seq<Token>)
    requires Plain(ts) && forall i :: 0 <= i < |ts| ==> !NamesValue(ts[i])
    ensures forall i :: 0 <= i < |ts| ==> !IsValue(ts[i])
    ensures forall i :: 0 <= i < |ts| ==> !OfClass(ts[i], ENV) && !OfClass(ts[i], CTX) && !OfClass(ts[i], LAYER)
  {
  }

  /** The usual template, for the tile 3/1/2: as it is, and with its rows counted from the other end. */
  lemma ZoomColumnRow(r: TileRequest, template: string, b: BoundsText, v: Values)
    requires r == TileRequest("l", 3, 1, 2) && template == "{z}/{x}/{y}" && BoundsOk(b)
    ensures Rewritten(r, template, false, b, v) == "3/1/2"
    ensures Rewritten(r, template, true, b, v) == "3/1/5"
  {
    SmallNumbers(r);
    hide *;
    ZoomColumnRowIs(r, template, false, b, v, 2);
    ZoomColumnRowIs(r, template, true, b, v, 5);
  }

  lemma SmallNumbers(r: TileRequest)
    requires r == TileRequest("l", 3, 1, 2)
    ensures IsRow(r, false, 2) && IsRow(r, true, 5)
    ensures Itoa(r.z) == "3" && Itoa(r.x) == "1" && Itoa(2) == "2" && Itoa(5) == "5"
  {
    assert Exp2(3) == 8;
    assert Itoa(3) == "3" && Itoa(1) == "1";
  }

  const ZXY := [Brace("z"), Text("/"), Brace("x"), Text("/"), Brace("y")]
  const XY := [Brace("x"), Text("/"), Brace("y")]

  lemma {:induction false} ZoomColumnRowIs(r: TileRequest, template: string, invertY: bool, b: BoundsText, v: Values,
                                           row: int)
    requires template == "{z}/{x}/{y}" && BoundsOk(b) && r.z >= 0 && IsRow(r, invertY, row)
    ensures Rewritten(r, template, invertY, b, v) == Itoa(r.z) + "/" + Itoa(r.x) + "/" + Itoa(row)
  {
    ZXYPrints();
    ZXYReads(r.z, r.x, row, b, v);
    ZXYHasNoValues();
    NumberHasNoDollar(r.z);
    NumberHasNoDollar(r.x);
    NumberHasNoDollar(row);
    hide *;
    CoordinateTemplateReads(ZXY, r, invertY, b, v, row);
  }

  lemma {:induction false} ZXYPrints()
    ensures Print(ZXY) == "{z}/{x}/{y}"
  {
    assert XY[1..] == [Text("/"), Brace("y")] && XY[1..][1..] == [Brace("y")];
    assert Print([Brace("y")]) == "{y}" + "" == "{y}";
    assert Print(XY[1..]) == "/" + "{y}" == "/{y}";
    assert Print(XY) == "{x}" + "/{y}" == "{x}/{y}";
    assert ZXY[1..] == [Text("/")] + XY && ZXY[1..][1..] == XY;
    assert Print(ZXY[1..]) == "/" + "{x}/{y}" == "/{x}/{y}";
    assert Print(ZXY) == "{z}" + "/{x}/{y}";
  }

  lemma {:induction false} ZXYReads(z: int, x: int, row: int, b: BoundsText, v: Values)
    ensures Reading(ZXY, false, v, z, x, row, b) == Itoa(z) + "/" + Itoa(x) + "/" + Itoa(row)
  {
    hide Itoa;
    forall q: bool ensures Reading(XY, q, v, z, x, row, b) == Itoa(x) + "/" + Itoa(row) {
      assert XY[1..] == [Text("/"), Brace("y")] && XY[1..][1..] == [Brace("y")] && [Brace("y")][1..] == [];
      assert forall p: bool :: Reading([Brace("y")], p, v, z, x, row, b) == Itoa(row) + "" == Itoa(row);
      assert forall p: bool :: Reading(XY[1..], p, v, z, x, row, b) == "/" + Itoa(row);
    }
    assert ZXY[1..] == [Text("/")] + XY && ZXY[1..][1..] == XY;
    assert forall p: bool :: Reading(ZXY[1..], p, v, z, x, row, b) == "/" + (Itoa(x) + "/" + Itoa(row));
  }

  lemma {:induction false} ZXYHasNoValues()
    ensures TokensOk(ZXY) && Plain(ZXY) && forall i :: 0 <= i < |ZXY| ==> !NamesValue(ZXY[i])
  {
    assert forall i :: 0 <= i < |ZXY| ==> ZXY[i].Brace? ==> |ZXY[i].name| == 1;
  }

  lemma NumberHasNoDollar(n: int)
    ensures '$' !in Itoa(n)
  {
    var digits := NatText(if n < 0 then -n else n);
    assert n < 0 ==> forall i :: 1 <= i < |Itoa(n)| ==> Itoa(n)[i] == digits[i - 1];
  }
}
