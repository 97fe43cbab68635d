/** JWT authentication: the claims checks, and the cache of tokens that were already verified. */
module JwtCache {
  import opened Strings
  import opened TileRequests
  import opened Wrappers

  // ---------- Values ----------

  /** A claim of a token: missing, a string, or of another type. */
  datatype Claim = Absent | Text(value: string) | Other

  datatype Claims = Claims(notBefore: Option<int>, expiration: int, scope: Claim, geohash: Claim, user: Claim)

  /**
   The configuration.  `parse` stands for the checks that do not depend on the time: signature under the
   static key, algorithm, audience, subject, issuer, and presence of an expiration; `area` for the geohash decoder.
  */
  datatype Config = Config(
    headerName: string,
    parse: string -> Option<Claims>,
    area: string -> Option<Bounds>,
    maxExpiration: nat,
    expectedScope: string,
    layerScope: bool,
    scopePrefix: string)

  const SECOND := 1_000_000_000
  const LEEWAY := 5 * SECOND

  /** What a request context says about the authenticated user. */
  datatype Cells = Cells(
    limitLayers: bool,
    allowedLayers: seq<string>,
    limitAreaPartial: bool,
    allowedArea: Bounds,
    userID: string)

  const FRESH := Cells(false, [], false, Bounds(0.0, 0.0, 0.0, 0.0, 0), "")

  /** `expiration` and the cells to replay. */
  datatype CachedAuthResult = CachedAuthResult(expiration: int, cells: Cells)

  /** The clock as one validation reads it: in the parser, for the expiration, and for the distance to it. */
  datatype Times = Times(parser: int, expiry: int, distance: int) {
    predicate Ordered() {
      parser <= expiry <= distance
    }
  }

  function At(now: int): Times {
    Times(now, now, now)
  }

  // ---------- What a validation decides ----------

  /** The token in the values of the configured header; a bearer prefix is cut out of the authorization header. */
  function TokenIn(headerName: string, values: seq<string>): Option<string> {
    if |values| != 1 then None
    else
      var token := if headerName == "Authorization" then ReplaceOnce(values[0], "Bearer ", "") else values[0];
      if token == "" then None else Some(token)
  }

  /**
   A bearer token is taken whole, with whatever it contains; other texts are taken as they are, from any header
   but the authorization header even where they look like a bearer token; no token at all is refused.
  */
  lemma BearerTokenIsTaken(headerName: string, token: string)
    ensures TokenIn("Authorization", ["Bearer " + token]) == if token == "" then None else Some(token)
    ensures headerName != "Authorization" || Index(token, "Bearer ") < 0 ==>
              TokenIn(headerName, [token]) == if token == "" then None else Some(token)
  {
    var s := "Bearer " + token;
    assert s[..7] == "Bearer " && s[7..] == token;
    assert IsAt(s, "Bearer ", 0);
    assert "" + "" + token == token;
  }

  /** There must be one value: no header and repeated headers are refused. */
  lemma OneValueIsNeeded(headerName: string, values: seq<string>)
    ensures TokenIn(headerName, values).Some? ==> |values| == 1 && values[0] != ""
  {
    if |values| == 1 && values[0] == "" {
      assert ReplaceOnce("", "Bearer ", "") == "";
    }
  }

  /** `strings.Split(s, " ")`. */
  function Split(s: string): seq<string>
    decreases |s|
  {
    if ' ' in s then
      var i := FirstBlank(s);
      [s[..i]] + Split(s[i + 1..])
    else [s]
  }

  function FirstBlank(s: string): (i: nat)
    requires ' ' in s
    ensures i < |s| && s[i] == ' '
  {
    if s[0] == ' ' then 0 else FirstBlank(s[1..]) + 1
  }

  function LayersOf(scopes: seq<string>, prefix: string): seq<string> {
    if scopes == [] then []
    else
      var before, last := LayersOf(scopes[..|scopes| - 1], prefix), scopes[|scopes| - 1];
      if prefix <= last then before + [last[|prefix|..]] else before
  }

  function Join(parts: seq<string>): string {
    if parts == [] then "" else if |parts| == 1 then parts[0] else parts[0] + " " + Join(parts[1..])
  }

  /** Splitting undoes joining with blanks. */
  lemma {:induction false} SplitJoins(s: string)
    ensures Split(s) != [] && Join(Split(s)) == s && forall i :: 0 <= i < |Split(s)| ==> ' ' !in Split(s)[i]
    decreases |s|
  {
    if ' ' in s {
      var i := FirstBlank(s);
      NoBlankBefore(s);
      SplitJoins(s[i + 1..]);
      assert Split(s)[1..] == Split(s[i + 1..]);
      assert s == s[..i] + " " + s[i + 1..];
    }
  }

  lemma {:induction false} NoBlankBefore(s: string)
    requires ' ' in s
    ensures ' ' !in s[..FirstBlank(s)]
  {
    if s[0] != ' ' {
      NoBlankBefore(s[1..]);
      assert s[..FirstBlank(s)] == [s[0]] + s[1..][..FirstBlank(s[1..])];
    }
  }

  /** The layers a token allows are exactly those that it names behind the prefix. */
  lemma {:induction false} LayersAreNamed(scopes: seq<string>, prefix: string, layer: string)
    ensures layer in LayersOf(scopes, prefix) <==> prefix + layer in scopes
  {
    if scopes != [] {
      var n := |scopes| - 1;
      LayersAreNamed(scopes[..n], prefix, layer);
      assert scopes == scopes[..n] + [scopes[n]];
      assert scopes[n] == prefix + layer ==> scopes[n][|prefix|..] == layer;
      assert prefix <= scopes[n] ==> scopes[n] == prefix + scopes[n][|prefix|..];
    }
  }

  predicate ScopeOk(cfg: Config, scope: Claim) {
    if scope.Text? then cfg.expectedScope == "" || cfg.expectedScope in Split(scope.value)
    else !cfg.layerScope && cfg.expectedScope == ""
  }

  predicate GeohashOk(cfg: Config, geohash: Claim) {
    geohash.Absent? || (geohash.Text? && cfg.area(geohash.value).Some?)
  }

  predicate Timely(c: Claims, cfg: Config, t: Times) {
    && t.parser < c.expiration + LEEWAY
    && (c.notBefore.Some? ==> c.notBefore.value - LEEWAY <= t.parser)
    && t.expiry <= c.expiration
    && c.expiration - t.distance <= cfg.maxExpiration * SECOND
  }

  predicate Accepts(cfg: Config, token: string, t: Times) {
    var parsed := cfg.parse(token);
    && parsed.Some? && Timely(parsed.value, cfg, t)
    && ScopeOk(cfg, parsed.value.scope) && GeohashOk(cfg, parsed.value.geohash)
  }

  /** What an accepted token leaves in the context. */
  function Granted(cfg: Config, c: Claims, cells: Cells): Cells {
    Cells(
      cells.limitLayers || cfg.layerScope,
      cells.allowedLayers +
        (if cfg.layerScope && c.scope.Text? then LayersOf(Split(c.scope.value), cfg.scopePrefix) else []),
      cells.limitAreaPartial || c.geohash.Text?,
      if c.geohash.Text? && cfg.area(c.geohash.value).Some? then cfg.area(c.geohash.value).value else cells.allowedArea,
      match c.user case Absent => cells.userID case Text(u) => u case Other => "")
  }

  /** What a cached result leaves in the context. */
  function Replayed(r: CachedAuthResult, cells: Cells): Cells {
    Cells(
      r.cells.limitLayers,
      cells.allowedLayers + r.cells.allowedLayers,
      r.cells.limitAreaPartial,
      if r.cells.allowedArea.IsNullIsland() then cells.allowedArea else r.cells.allowedArea,
      if r.cells.userID == "" then cells.userID else r.cells.userID)
  }

  // ---------- What an accepted token allows ----------

  /** The check on the layer, by its id, before a tile is rendered. */
  predicate MayRender(cells: Cells, layer: string) {
    !cells.limitLayers || layer in cells.allowedLayers
  }

  /** The check on the area of the tile. */
  predicate MayTouch(cells: Cells, b: Bounds) {
    || cells.allowedArea.IsNullIsland()
    || if cells.limitAreaPartial then cells.allowedArea.Intersects(b) else cells.allowedArea.Contains(b)
  }

  /** The token names the layer: as a word of its scope, behind the prefix. */
  predicate NamesLayer(cfg: Config, c: Claims, layer: string) {
    c.scope.Text? && cfg.scopePrefix + layer in Split(c.scope.value)
  }

  /** The token's geohash, where it has one that restricts anything, touches the area. */
  predicate TouchesGeohash(cfg: Config, c: Claims, b: Bounds) {
    c.geohash.Text? ==>
      && cfg.area(c.geohash.value).Some?
      && var area := cfg.area(c.geohash.value).value; area.IsNullIsland() || area.Intersects(b)
  }

  /**
   The rights of a token, read off its claims: under layer scopes the layers it names and all layers
   otherwise, the area of its geohash, and the user it identifies.
  */
  ghost predicate HasRightsOf(cfg: Config, token: string, cells: Cells) {
    && cfg.parse(token).Some?
    && var c := cfg.parse(token).value;
    && (forall layer :: MayRender(cells, layer) <==> (cfg.layerScope ==> NamesLayer(cfg, c, layer)))
    && (forall b :: MayTouch(cells, b) <==> TouchesGeohash(cfg, c, b))
    && cells.userID == (if c.user.Text? then c.user.value else "")
  }

  lemma GrantedRights(cfg: Config, token: string)
    requires cfg.parse(token).Some?
    requires ScopeOk(cfg, cfg.parse(token).value.scope) && GeohashOk(cfg, cfg.parse(token).value.geohash)
    ensures HasRightsOf(cfg, token, Granted(cfg, cfg.parse(token).value, FRESH))
  {
    var c := cfg.parse(token).value;
    var cells := Granted(cfg, c, FRESH);
    forall layer ensures MayRender(cells, layer) <==> (cfg.layerScope ==> NamesLayer(cfg, c, layer)) {
      if c.scope.Text? {
        LayersAreNamed(Split(c.scope.value), cfg.scopePrefix, layer);
      }
      hide Split, LayersOf;
    }
  }

  /** Replaying a result in a fresh context keeps its rights. */
  lemma ReplayKeepsRights(cfg: Config, token: string, r: CachedAuthResult)
    requires HasRightsOf(cfg, token, r.cells)
    ensures HasRightsOf(cfg, token, Replayed(r, FRESH))
  {
    var cells := Replayed(r, FRESH);
    hide NamesLayer, TouchesGeohash;
    assert forall layer :: MayRender(cells, layer) <==> MayRender(r.cells, layer);
    assert forall b :: MayTouch(cells, b) <==> MayTouch(r.cells, b);
  }

  /** Every entry of the cache has the rights and the expiration of its token. */
  ghost predicate EntriesAreRight(cfg: Config, cache: map<string, CachedAuthResult>) {
    forall token :: token in cache ==>
      HasRightsOf(cfg, token, cache[token].cells)
      && cache[token].expiration == cfg.parse(token).value.expiration
  }

  /** The decision with any such cache gives a fresh context the rights of the token. */
  lemma DecisionRights(cfg: Config, cache: map<string, CachedAuthResult>, token: string, t: Times)
    requires EntriesAreRight(cfg, cache) && Decision(cfg, cache, token, t, FRESH).Some?
    ensures HasRightsOf(cfg, token, Decision(cfg, cache, token, t, FRESH).value)
  {
    hide HasRightsOf;
    if token in cache {
      ReplayKeepsRights(cfg, token, cache[token]);
    } else {
      GrantedRights(cfg, token);
    }
  }

  /** With all clocks read at one instant a token is accepted exactly under these conditions, in nanoseconds. */
  lemma AcceptedAtOneInstant(cfg: Config, token: string, now: int)
    ensures Accepts(cfg, token, At(now)) <==>
            cfg.parse(token).Some? &&
            var c := cfg.parse(token).value;
            && now <= c.expiration <= now + cfg.maxExpiration * 1_000_000_000
            && (c.notBefore.Some? ==> c.notBefore.value <= now + 5_000_000_000)
            && (cfg.layerScope ==> c.scope.Text?)
            && (cfg.expectedScope != "" ==> c.scope.Text? && cfg.expectedScope in Split(c.scope.value))
            && (c.geohash == Absent || (c.geohash.Text? && cfg.area(c.geohash.value).Some?))
  {
    hide Split;
  }

  // ---------- The program ----------

  class RequestContext {
    var limitLayers: bool
    var allowedLayers: seq<string>
    var limitAreaPartial: bool
    var allowedArea: Bounds
    var userID: string

    ghost function Contents(): Cells
      reads this
    {
      Cells(limitLayers, allowedLayers, limitAreaPartial, allowedArea, userID)
    }

    constructor ()
      ensures Contents() == FRESH
    {
      limitLayers, allowedLayers, limitAreaPartial := false, [], false;
      allowedArea, userID := Bounds(0.0, 0.0, 0.0, 0.0, 0), "";
    }
  }

  class Jwt {
    const cfg: Config
    const caching: bool
    var cache: map<string, CachedAuthResult>

    constructor (cfg: Config, caching: bool)
      ensures this.cfg == cfg && this.caching == caching && cache == map[]
    {
      this.cfg, this.caching, cache := cfg, caching, map[];
    }

    method ValidateScope(ctx: RequestContext, scope: Claim) returns (ok: bool)
      modifies ctx`allowedLayers
      ensures ok == ScopeOk(cfg, scope)
      ensures ctx.allowedLayers == old(ctx.allowedLayers) +
              if ok && cfg.layerScope && scope.Text? then LayersOf(Split(scope.value), cfg.scopePrefix) else []
    {
      hide Split;
      if !scope.Text? {
        return !cfg.layerScope && cfg.expectedScope == "";
      }
      var scopes := Split(scope.value);
      if cfg.expectedScope != "" {
        var hasScope := false;
        for i := 0 to |scopes|
          invariant hasScope <==> cfg.expectedScope in scopes[..i]
        {
          if scopes[i] == cfg.expectedScope {
            hasScope := true;
          }
        }
        assert scopes[..|scopes|] == scopes;
        if !hasScope {
          return false;
        }
      }
      if cfg.layerScope {
        for i := 0 to |scopes|
          invariant ctx.allowedLayers == old(ctx.allowedLayers) + LayersOf(scopes[..i], cfg.scopePrefix)
        {
          assert scopes[..i + 1][..i] == scopes[..i];
          if cfg.scopePrefix <= scopes[i] {
            ctx.allowedLayers := ctx.allowedLayers + [scopes[i][|cfg.scopePrefix|..]];
          }
        }
        assert scopes[..|scopes|] == scopes;
      }
      return true;
    }

    method ValidateGeohash(ctx: RequestContext, geohash: Claim) returns (ok: bool)
      modifies ctx`allowedArea, ctx`limitAreaPartial
      ensures ok == GeohashOk(cfg, geohash)
      ensures !ok || geohash.Absent? ==> unchanged(ctx`allowedArea) && unchanged(ctx`limitAreaPartial)
      ensures ok && geohash.Text? ==> Some(ctx.allowedArea) == cfg.area(geohash.value) && ctx.limitAreaPartial
    {
      if geohash.Absent? {
        return true;
      }
      if !geohash.Text? {
        return false;
      }
      var bounds := cfg.area(geohash.value);
      if bounds.None? {
        return false;
      }
      ctx.allowedArea, ctx.limitAreaPartial := bounds.value, true;
      return true;
    }

    method CheckAuthenticationWithoutCache(ctx: RequestContext, token: string, t: Times)
      returns (r: Option<CachedAuthResult>)
      modifies ctx
      ensures r.Some? <==> Accepts(cfg, token, t)
      ensures r.Some? ==> ctx.Contents() == Granted(cfg, cfg.parse(token).value, old(ctx.Contents()))
      ensures r.Some? ==> r.value == CachedAuthResult(cfg.parse(token).value.expiration, ctx.Contents())
    {
      var parsed := cfg.parse(token);
      if parsed.None? {
        return None;
      }
      var c := parsed.value;
      if t.parser >= c.expiration + LEEWAY || (c.notBefore.Some? && t.parser < c.notBefore.value - LEEWAY) {
        return None;
      }
      if c.expiration < t.expiry {
        return None;
      }
      if c.expiration - t.distance > cfg.maxExpiration * SECOND {
        return None;
      }
      if cfg.layerScope {
        ctx.limitLayers := true;
      }
      var passed := ValidateScope(ctx, c.scope);
      if !passed {
        return None;
      }
      passed := ValidateGeohash(ctx, c.geohash);
      if !passed {
        return None;
      }
      if !c.user.Absent? {
        ctx.userID := if c.user.Text? then c.user.value else "";
      }
      return Some(CachedAuthResult(c.expiration,
                                   Cells(ctx.limitLayers, ctx.allowedLayers, ctx.limitAreaPartial,
                                         ctx.allowedArea, ctx.userID)));
    }

    method Apply(r: CachedAuthResult, ctx: RequestContext)
      modifies ctx
      ensures ctx.Contents() == Replayed(r, old(ctx.Contents()))
    {
      ctx.limitLayers := r.cells.limitLayers;
      ctx.allowedLayers := ctx.allowedLayers + r.cells.allowedLayers;
      ctx.limitAreaPartial := r.cells.limitAreaPartial;
      if !r.cells.allowedArea.IsNullIsland() {
        ctx.allowedArea := r.cells.allowedArea;
      }
      if r.cells.userID != "" {
        ctx.userID := r.cells.userID;
      }
    }

    method ExtractToken(values: seq<string>) returns (token: Option<string>)
      ensures token == TokenIn(cfg.headerName, values)
    {
      if |values| != 1 {
        return None;
      }
      var text := values[0];
      if cfg.headerName == "Authorization" {
        text := ReplaceOnce(text, "Bearer ", "");
      }
      if |text| < 1 {
        return None;
      }
      return Some(text);
    }

    /**
     Other requests may have changed the cache to `meanwhile` before the result is stored, and the store may be
     dropped.
    */
    method CheckAuthentication(ctx: RequestContext, values: seq<string>, t: Times,
                               meanwhile: map<string, CachedAuthResult>, kept: bool) returns (ok: bool)
      modifies this`cache, ctx
      ensures TokenIn(cfg.headerName, values).None? ==>
                !ok && cache == old(cache) && ctx.Contents() == old(ctx.Contents())
      ensures TokenIn(cfg.headerName, values).Some? ==>
              var token := TokenIn(cfg.headerName, values).value;
              var before := if caching then old(cache) else map[];
              var d := Decision(cfg, before, token, t, old(ctx.Contents()));
              && ok == d.Some? && (ok ==> ctx.Contents() == d.value)
              && cache == if caching && token !in before && ok
                          then Stored(meanwhile, token,
                                      CachedAuthResult(cfg.parse(token).value.expiration, d.value), kept)
                          else old(cache)
      ensures ok && old(ctx.Contents()) == FRESH && EntriesAreRight(cfg, if caching then old(cache) else map[]) ==>
                HasRightsOf(cfg, TokenIn(cfg.headerName, values).value, ctx.Contents())
      ensures old(ctx.Contents()) == FRESH && EntriesAreRight(cfg, old(cache)) && EntriesAreRight(cfg, meanwhile) ==>
                EntriesAreRight(cfg, cache)
    {
      var extracted := ExtractToken(values);
      if extracted.None? {
        return false;
      }
      var token := extracted.value;
      if caching && token in cache {
        var result := cache[token];
        if result.expiration <= t.parser {
          return false;
        }
        Apply(result, ctx);
        if old(ctx.Contents()) == FRESH && EntriesAreRight(cfg, cache) {
          DecisionRights(cfg, cache, token, t);
        }
        return true;
      }
      var result := CheckAuthenticationWithoutCache(ctx, token, t);
      if result.None? {
        return false;
      }
      GrantedRights(cfg, token);
      if caching {
        cache := meanwhile;
        if kept && token !in cache {
          cache := cache[token := result.value];
        }
      }
      return true;
    }
  }

  /** What the authentication decides with a given cache: on a hit it only looks at the expiration. */
  function Decision(cfg: Config, cache: map<string, CachedAuthResult>, token: string, t: Times, cells: Cells)
    : Option<Cells>
  {
    if token in cache then
      if t.parser < cache[token].expiration then Some(Replayed(cache[token], cells)) else None
    else Verdict(cfg, token, t, cells)
  }

  /** What it decides without one. */
  function Verdict(cfg: Config, token: string, t: Times, cells: Cells): Option<Cells> {
    if Accepts(cfg, token, t) then Some(Granted(cfg, cfg.parse(token).value, cells)) else None
  }

  /** `SetIfAbsent`, which a bounded cache may also drop. */
  function Stored(cache: map<string, CachedAuthResult>, token: string, r: CachedAuthResult, kept: bool)
    : (after: map<string, CachedAuthResult>)
    ensures forall k :: k in cache ==> k in after && after[k] == cache[k]
    ensures forall k :: k in after && k !in cache ==> k == token && after[k] == r
  {
    if kept && token !in cache then cache[token := r] else cache
  }

  // ---------- Runs ----------

  /** A validated token whose result is not stored yet; `at` is the last time its validation read. */
  datatype Pending = Pending(token: string, result: CachedAuthResult, at: int)

  /** `clock` is the last time that a validation of something in the cache has read. */
  datatype State = State(cache: map<string, CachedAuthResult>, pending: seq<Pending>, clock: int)

  /** A request looks its token up and validates it on a miss; it stores the result later; the cache forgets. */
  datatype Action =
    | Check(token: string, t: Times)
    | Store(i: nat, kept: bool)
    | Evict(token: string)

  /** Clocks do not run backwards: a hit reads the clock after the validation of the entry has read it. */
  predicate Enabled(s: State, a: Action) {
    match a
    case Check(token, t) => t.Ordered() && (token in s.cache ==> s.clock <= t.parser)
    case Store(i, _) => i < |s.pending|
    case Evict(_) => true
  }

  function Step(cfg: Config, s: State, a: Action): State
    requires Enabled(s, a)
  {
    match a
    case Check(token, t) =>
      if token in s.cache || !Accepts(cfg, token, t) then s
      else s.(pending := s.pending + [Pending(token, FreshResult(cfg, token), t.distance)])
    case Store(i, kept) =>
      var p := s.pending[i];
      State(Stored(s.cache, p.token, p.result, kept),
            s.pending[..i] + s.pending[i + 1..],
            if p.at > s.clock then p.at else s.clock)
    case Evict(token) => s.(cache := s.cache - {token})
  }

  function FreshResult(cfg: Config, token: string): CachedAuthResult
    requires cfg.parse(token).Some?
  {
    CachedAuthResult(cfg.parse(token).value.expiration, Granted(cfg, cfg.parse(token).value, FRESH))
  }

  /** A result that a validation with a fresh context has produced no later than `clock`. */
  ghost predicate Genuine(cfg: Config, token: string, r: CachedAuthResult, clock: int) {
    exists t: Times :: t.Ordered() && t.distance <= clock && Accepts(cfg, token, t) && r == FreshResult(cfg, token)
  }

  ghost predicate Inv(cfg: Config, s: State) {
    && (forall token :: token in s.cache ==> Genuine(cfg, token, s.cache[token], s.clock))
    && (forall i :: 0 <= i < |s.pending| ==> Genuine(cfg, s.pending[i].token, s.pending[i].result, s.pending[i].at))
  }

  lemma StepKeepsInv(cfg: Config, s: State, a: Action)
    requires Inv(cfg, s) && Enabled(s, a)
    ensures Inv(cfg, Step(cfg, s, a))
  {
    if a.Check? && a.token !in s.cache && Accepts(cfg, a.token, a.t) {
      assert Genuine(cfg, a.token, FreshResult(cfg, a.token), a.t.distance);
    }
  }

  ghost predicate IsRun(cfg: Config, states: seq<State>, actions: seq<Action>) {
    && |states| == |actions| + 1
    && states[0].cache == map[] && states[0].pending == []
    && forall i :: 0 <= i < |actions| ==>
         Enabled(states[i], actions[i]) && states[i + 1] == Step(cfg, states[i], actions[i])
  }

  lemma {:induction false} RunInv(cfg: Config, states: seq<State>, actions: seq<Action>, i: nat)
    requires IsRun(cfg, states, actions) && i < |states|
    ensures Inv(cfg, states[i])
  {
    if i > 0 {
      RunInv(cfg, states, actions, i - 1);
      StepKeepsInv(cfg, states[i - 1], actions[i - 1]);
    }
  }

  /** The same rights; areas that restrict nothing are alike. */
  predicate SameRights(a: Cells, b: Cells) {
    a == b.(allowedArea := a.allowedArea)
    && (a.allowedArea == b.allowedArea || (a.allowedArea.IsNullIsland() && b.allowedArea.IsNullIsland()))
  }

  /** Replaying a validation's result in a fresh context grants what the validation granted. */
  lemma ReplayGrantsTheSame(cfg: Config, token: string)
    requires cfg.parse(token).Some?
    ensures SameRights(Replayed(FreshResult(cfg, token), FRESH), Granted(cfg, cfg.parse(token).value, FRESH))
  {
  }

  /** A token that was valid once is valid as long as it has not expired. */
  lemma ValidUntilExpiration(cfg: Config, token: string, t: Times, now: int)
    requires t.Ordered() && t.distance <= now && Accepts(cfg, token, t)
    ensures Accepts(cfg, token, At(now)) <==> now <= cfg.parse(token).value.expiration
  {
  }

  /** When the decision with the cache is compared with the one without: at the time a hit reads. */
  function Compared(s: State, token: string, t: Times): Times {
    if token in s.cache then At(t.parser) else t
  }

  /**
   In every run, a request gets the decision that validating its token afresh would give, and when it is
   accepted the same rights - except that a hit at the very instant of expiration is refused.
  */
  lemma CacheAgrees(cfg: Config, states: seq<State>, actions: seq<Action>, i: nat)
    requires IsRun(cfg, states, actions) && i < |actions| && actions[i].Check?
    ensures var s, token, t := states[i], actions[i].token, actions[i].t;
            var cached := Decision(cfg, s.cache, token, t, FRESH);
            var anew := Verdict(cfg, token, Compared(s, token, t), FRESH);
            && (cached.Some? == anew.Some? <==> !(token in s.cache && t.parser == s.cache[token].expiration))
            && (cached.Some? ==> anew.Some? && SameRights(cached.value, anew.value))
  {
    var s, token, t := states[i], actions[i].token, actions[i].t;
    RunInv(cfg, states, actions, i);
    if token in s.cache {
      assert Genuine(cfg, token, s.cache[token], s.clock);
      var v: Times :| v.Ordered() && v.distance <= s.clock && Accepts(cfg, token, v)
          && s.cache[token] == FreshResult(cfg, token);
      ValidUntilExpiration(cfg, token, v, t.parser);
      ReplayGrantsTheSame(cfg, token);
    }
  }

  /**
   What an accepted request may do: in every run, with concurrent requests, delayed stores and evictions,
   exactly what the claims of its own token say.
  */
  lemma AcceptedMayExactly(cfg: Config, states: seq<State>, actions: seq<Action>, i: nat)
    requires IsRun(cfg, states, actions) && i < |actions| && actions[i].Check?
    ensures var s, token, t := states[i], actions[i].token, actions[i].t;
            var d := Decision(cfg, s.cache, token, t, FRESH);
            d.Some? ==> HasRightsOf(cfg, token, d.value)
  {
    var s, token, t := states[i], actions[i].token, actions[i].t;
    RunInv(cfg, states, actions, i);
    hide HasRightsOf, Decision;
    forall k | k in s.cache
      ensures HasRightsOf(cfg, k, s.cache[k].cells) && s.cache[k].expiration == cfg.parse(k).value.expiration
    {
      GenuineRights(cfg, k, s.cache[k], s.clock);
    }
    if Decision(cfg, s.cache, token, t, FRESH).Some? {
      DecisionRights(cfg, s.cache, token, t);
    }
  }

  lemma GenuineRights(cfg: Config, token: string, r: CachedAuthResult, clock: int)
    requires Genuine(cfg, token, r, clock)
    ensures HasRightsOf(cfg, token, r.cells) && r.expiration == cfg.parse(token).value.expiration
  {
    GrantedRights(cfg, token);
    hide HasRightsOf;
  }

  /** The exception occurs: a token used before it expires, and again when it does. */
  lemma RefusedAtExpiration(cfg: Config, token: string, now: int) returns (states: seq<State>, actions: seq<Action>)
    requires Accepts(cfg, token, At(now))
    ensures IsRun(cfg, states, actions) && |actions| == 3
    ensures var end := cfg.parse(token).value.expiration;
            && actions[2] == Check(token, At(end)) && Accepts(cfg, token, At(end))
            && Decision(cfg, states[2].cache, token, At(end), FRESH).None?
  {
    var end := cfg.parse(token).value.expiration;
    actions := [Check(token, At(now)), Store(0, true), Check(token, At(end))];
    var s0 := State(map[], [], now);
    var s1 := Step(cfg, s0, actions[0]);
    var s2 := Step(cfg, s1, actions[1]);
    states := [s0, s1, s2, Step(cfg, s2, actions[2])];
  }
}
