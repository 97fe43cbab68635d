/** Tile requests, their ranges, and the keys under which caches keep their images. */
module TileRequests {
  import opened Decimal
  import opened Wrappers

  datatype TileRequest = TileRequest(layerName: string, z: int, x: int, y: int)

  const DELTA := 0.00000001

  datatype Bounds = Bounds(south: real, north: real, west: real, east: real, srid: nat) {
    predicate IsNullIsland() {
      east == 0.0 && north == 0.0 && west == 0.0 && south == 0.0
    }

    /** Some part of the two touches. */
    predicate Intersects(b: Bounds) {
      b.north > south && b.south < north && b.east > west && b.west < east
    }

    /** `b` lies within, up to the tolerance. */
    predicate Contains(b: Bounds) {
      b.south + DELTA >= south && b.north <= north + DELTA && b.west + DELTA >= west && b.east <= east + DELTA
    }
  }

  const MAX_ZOOM := 21

  function Exp2(z: nat): (n: nat)
    ensures n >= 1
  {
    if z == 0 then 1 else 2 * Exp2(z - 1)
  }

  predicate InRange(r: TileRequest, srid: nat) {
    && 0 <= r.z <= MAX_ZOOM && srid in {4326, 3857}
    && 0 <= r.x < Exp2(r.z) && 0 <= r.y < Exp2(r.z)
  }

  // ---------- Keys ----------

  function StringWithSeparator(t: TileRequest, sep: string): string {
    t.layerName + sep + Itoa(t.z) + sep + Itoa(t.x) + sep + Itoa(t.y)
  }

  function Key(t: TileRequest): string {
    StringWithSeparator(t, "/")
  }

  /** A key is read from left to right: name, zoom level, column, row. */
  lemma {:induction false} KeyReads(t: TileRequest, key: string)
    requires t == TileRequest("l", 3, 1, 2) && key == "l/3/1/2"
    ensures Key(t) == key
  {
    assert NatText(3) == "3" && NatText(1) == "1" && NatText(2) == "2";
  }

  /** A separator that no number contains. */
  predicate Separates(c: char) {
    !IsDigit(c) && c != '-'
  }

  lemma NumberWithout(n: int, c: char)
    requires Separates(c)
    ensures c !in Itoa(n)
  {
    var digits := NatText(if n < 0 then -n else n);
    assert forall i :: 0 <= i < |digits| ==> digits[i] != c;
  }

  /** The last separator of a string tells where its last part begins. */
  lemma LastPart(a: string, b: string, c: char, d: string, e: string)
    requires a + [c] + d == b + [c] + e && c !in d && c !in e
    ensures a == b && d == e
  {
    var s := a + [c] + d;
    assert s[|a|] == c && s[|b|] == (b + [c] + e)[|b|] == c;
    assert forall i :: |a| < i < |s| ==> s[i] == d[i - |a| - 1] && d[i - |a| - 1] in d;
    assert forall i :: |b| < i < |s| ==> s[i] == (b + [c] + e)[i] == e[i - |b| - 1] && e[i - |b| - 1] in e;
    assert |a| == |b|;
    assert s[..|a|] == a && s[..|b|] == b;
    assert s[|a| + 1..] == d && s[|b| + 1..] == e;
  }

  /** Equal keys mean equal requests, whatever the layer is called: names may contain the separator. */
  lemma KeysAreUnique(t: TileRequest, u: TileRequest, c: char)
    requires Separates(c) && StringWithSeparator(t, [c]) == StringWithSeparator(u, [c])
    ensures t == u
  {
    NumbersWithout(t, c);
    NumbersWithout(u, c);
    LastPart(t.layerName + [c] + Itoa(t.z) + [c] + Itoa(t.x), u.layerName + [c] + Itoa(u.z) + [c] + Itoa(u.x),
             c, Itoa(t.y), Itoa(u.y));
    LastPart(t.layerName + [c] + Itoa(t.z), u.layerName + [c] + Itoa(u.z), c, Itoa(t.x), Itoa(u.x));
    LastPart(t.layerName, u.layerName, c, Itoa(t.z), Itoa(u.z));
    ItoaInjective(t.y, u.y);
    ItoaInjective(t.x, u.x);
    ItoaInjective(t.z, u.z);
  }

  lemma NumbersWithout(t: TileRequest, c: char)
    requires Separates(c)
    ensures c !in Itoa(t.z) && c !in Itoa(t.x) && c !in Itoa(t.y)
  {
    NumberWithout(t.z, c);
    NumberWithout(t.x, c);
    NumberWithout(t.y, c);
  }

  lemma DashIsAmbiguous()
    ensures StringWithSeparator(TileRequest("a", -1, 1, 1), "-") == StringWithSeparator(TileRequest("a-", 1, 1, 1), "-")
  {
    assert Itoa(-1) == "-" + NatText(1) && Itoa(1) == NatText(1);
  }

  lemma {:induction false} ZeroIsAmbiguous()
    ensures StringWithSeparator(TileRequest("", 100, 1, 1), "0") == StringWithSeparator(TileRequest("", 1, 0, 101), "0")
  {
    assert NatText(1) == "1" && NatText(10) == "10" && NatText(100) == "100" && NatText(101) == "101"
        && NatText(0) == "0";
    hide NatText;
  }

  lemma {:induction false} DigitIsAmbiguous(c: char, d: nat)
    requires 1 <= d <= 9 && c == DigitChar(d)
    ensures StringWithSeparator(TileRequest([c], d, d, d), [c])
            == StringWithSeparator(TileRequest("", 11 * d, d, d), [c])
  {
    assert NatText(d) == [c];
    assert 11 * d / 10 == d && 11 * d % 10 == d;
    assert NatText(11 * d) == [c] + [c];
    hide NatText;
  }

  /** Dashes and digits would not do: numbers contain them. */
  lemma AmbiguousOtherwise(c: char) returns (t: TileRequest, u: TileRequest)
    requires !Separates(c)
    ensures t != u && StringWithSeparator(t, [c]) == StringWithSeparator(u, [c])
  {
    hide StringWithSeparator;
    if c == '-' {
      t, u := TileRequest("a", -1, 1, 1), TileRequest("a-", 1, 1, 1);
      DashIsAmbiguous();
    } else if c == '0' {
      t, u := TileRequest("", 100, 1, 1), TileRequest("", 1, 0, 101);
      ZeroIsAmbiguous();
    } else {
      var d := DigitValue(c);
      t, u := TileRequest([c], d, d, d), TileRequest("", 11 * d, d, d);
      DigitIsAmbiguous(c, d);
    }
  }

  /** The single characters that make keys unique are exactly those that numbers do not contain. */
  lemma SeparatorsAreExact(c: char)
    ensures Separates(c) <==>
            forall t, u :: StringWithSeparator(t, [c]) == StringWithSeparator(u, [c]) ==> t == u
  {
    if Separates(c) {
      forall t, u | StringWithSeparator(t, [c]) == StringWithSeparator(u, [c]) ensures t == u {
        KeysAreUnique(t, u, c);
      }
    } else {
      var t, u := AmbiguousOtherwise(c);
    }
  }

  // ---------- The memory cache ----------

  class MemoryCache<Image> {
    var images: map<string, Image>
    ghost var saved: map<TileRequest, Image> // the last image saved for each request

    ghost predicate Valid()
      reads this
    {
      forall key :: key in images ==> exists t :: t in saved && Key(t) == key && saved[t] == images[key]
    }

    constructor ()
      ensures Valid() && images == map[] && saved == map[]
    {
      images, saved := map[], map[];
    }

    /** Only the image last saved for this very request is found. */
    method Lookup(t: TileRequest) returns (r: Option<Image>)
      requires Valid()
      ensures r.Some? <==> Key(t) in images
      ensures r.Some? ==> t in saved && r.value == saved[t]
    {
      var key := Key(t);
      if key !in images {
        return None;
      }
      ghost var u :| u in saved && Key(u) == key && saved[u] == images[key];
      KeysAreUnique(t, u, '/');
      return Some(images[key]);
    }

    method Save(t: TileRequest, img: Image)
      requires Valid()
      modifies this
      ensures Valid() && saved == old(saved)[t := img] && images == old(images)[Key(t) := img]
    {
      images := images[Key(t) := img];
      saved := saved[t := img];
      forall key | key in images ensures exists u :: u in saved && Key(u) == key && saved[u] == images[key] {
        if key == Key(t) {
          assert saved[t] == images[key];
        } else {
          var u :| u in old(saved) && Key(u) == key && old(saved)[u] == old(images)[key];
          assert u in saved && saved[u] == images[key];
        }
      }
    }

    /** Entries go when they are too old or the cache is full. */
    method Evict(keys: set<string>)
      requires Valid()
      modifies this`images
      ensures Valid() && images == old(images) - keys
    {
      images := images - keys;
    }
  }
}
