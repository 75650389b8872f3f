/**
 * The recommendation funnel after retrieval: the location cascade and the
 * query it shapes, the SQL `ILIKE` filters, the scoring of every hit with its
 * own distance and follower count, the stable sort by descending score and
 * the truncation to `limit`.
 *
 * The database is not modelled: `hits` stands for the rows it returns for
 * the query, each with its cosine distance to the query embedding, and
 * `fanCounts` for the batched follower-count lookup, in the same order.
 */
module RecSys {
  import opened Wrappers
  import opened Seqs
  import Ranking

  type UserId = nat

  /** The columns of a user row that the funnel reads. */
  datatype Profile = Profile(
    id: UserId,
    fullName: Option<string>,
    bio: Option<string>,
    location: Option<string>,
    role: Option<string>,
    isActive: bool,
    /** Whole days since `updated_at` on the ranking clock; `None` when unknown. */
    daysInactive: Option<int>)

  /** One database row: the user and its cosine distance to the query vector. */
  datatype Hit = Hit(profile: Profile, distance: real)

  /** The `location` and `role` entries of the `filters` dictionary (absent is `None`). */
  datatype Filters = Filters(location: Option<string>, role: Option<string>)

  /** The retrieval query: WHERE clauses and the LIMIT of the pool. */
  datatype Query = Query(excludeId: UserId, location: Option<string>, role: Option<string>, poolSize: nat)

  datatype Debug = Debug(vectorDist: real, fans: nat, daysInactive: Option<int>)

  /** One entry of the result list. */
  datatype Candidate = Candidate(
    userId: UserId,
    fullName: Option<string>,
    bio: Option<string>,
    location: Option<string>,
    role: Option<string>,
    matchScore: real,
    debug: Debug)

  /** Python truthiness of an optional string: present and non-empty. */
  predicate Truthy(s: Option<string>)
  {
    s.Some? && s.value != ""
  }

  // ---------------------------------------------------------------------------
  // Context resolution
  // ---------------------------------------------------------------------------

  /** The location cascade: explicit filter, else the initiator's own location, else none. */
  function ResolveLocation(filters: Filters, initiator: Profile, smartLocation: bool): (loc: Option<string>)
    ensures Truthy(filters.location) ==> loc == filters.location
    ensures !Truthy(filters.location) && smartLocation && Truthy(initiator.location) ==> loc == initiator.location
    ensures !Truthy(filters.location) && !(smartLocation && Truthy(initiator.location)) ==> loc == None
    ensures loc.Some? ==> Truthy(loc)
  {
    if Truthy(filters.location) then filters.location
    else if smartLocation && Truthy(initiator.location) then initiator.location
    else None
  }

  /**
   * The query sent to the database for an existing initiator: the initiator
   * excluded, the location from the cascade, the role filter only when it is
   * a non-empty string, and a pool three times the requested size.
   */
  function BuildQuery(initiatorId: UserId, initiator: Profile, filters: Filters, limit: nat, smartLocation: bool): (q: Query)
    ensures q.excludeId == initiatorId
    ensures q.poolSize == 3 * limit
    ensures Truthy(filters.location) ==> q.location == filters.location
    ensures !Truthy(filters.location) && smartLocation && Truthy(initiator.location) ==> q.location == initiator.location
    ensures q.location.None? <==> !Truthy(filters.location) && !(smartLocation && Truthy(initiator.location))
    ensures q.role.Some? <==> Truthy(filters.role)
    ensures q.role.Some? ==> q.role == filters.role
  {
    Query(
      initiatorId,
      ResolveLocation(filters, initiator, smartLocation),
      if Truthy(filters.role) then filters.role else None,
      limit * 3)
  }

  // ---------------------------------------------------------------------------
  // ILIKE '%filter%'
  // ---------------------------------------------------------------------------

  /** ASCII case folding. */
  function Lower(c: char): char
  {
    if 'A' <= c <= 'Z' then (c as int + 32) as char else c
  }

  /**
   * Case-insensitive SQL LIKE: `%` matches any run, `_` one character, and a
   * backslash makes the next character literal.
   */
  function Like(pattern: string, text: string): (r: bool)
    ensures pattern == "%" ==> r
    ensures r && NoWildcards(pattern) ==> |text| == |pattern|
    decreases |pattern| + |text|
  {
    if pattern == [] then text == []
    else if pattern[0] == '%' then Like(pattern[1..], text) || (text != [] && Like(pattern, text[1..]))
    else if text == [] then false
    else if pattern[0] == '_' then Like(pattern[1..], text[1..])
    else if pattern[0] == '\\' && |pattern| >= 2 then Lower(pattern[1]) == Lower(text[0]) && Like(pattern[2..], text[1..])
    else Lower(pattern[0]) == Lower(text[0]) && Like(pattern[1..], text[1..])
  }

  /** `column ILIKE '%filter%'`: without wildcard characters in the filter, a case-insensitive substring test. */
  function ILike(column: string, filter: string): (r: bool)
    ensures NoWildcards(filter) ==> (r <==> ContainsCI(column, filter))
  {
    LikeIsSubstring(column, filter);
    Like("%" + filter + "%", column)
  }

  predicate NoWildcards(s: string)
  {
    forall i :: 0 <= i < |s| ==> s[i] != '%' && s[i] != '_' && s[i] != '\\'
  }

  /** `f` matches the start of `t` up to case. */
  predicate PrefixCI(f: string, t: string)
  {
    |f| <= |t| && forall j :: 0 <= j < |f| ==> Lower(f[j]) == Lower(t[j])
  }

  /** `f` occurs in `t` up to case. */
  predicate ContainsCI(t: string, f: string)
  {
    exists i :: 0 <= i <= |t| && PrefixCI(f, t[i..])
  }

  lemma {:induction false} LiteralThenPercent(f: string, t: string)
    requires NoWildcards(f)
    ensures Like(f + "%", t) <==> PrefixCI(f, t)
  {
    if f == [] {
      assert f + "%" == "%";
    } else if t != [] {
      assert (f + "%")[1..] == f[1..] + "%";
      LiteralThenPercent(f[1..], t[1..]);
      if PrefixCI(f[1..], t[1..]) && Lower(f[0]) == Lower(t[0]) {
        assert PrefixCI(f, t) by {
          forall j | 0 <= j < |f| ensures Lower(f[j]) == Lower(t[j]) {
            if j > 0 {
              assert f[j] == f[1..][j - 1] && t[j] == t[1..][j - 1];
            }
          }
        }
      }
      if PrefixCI(f, t) {
        assert PrefixCI(f[1..], t[1..]) by {
          forall j | 0 <= j < |f| - 1 ensures Lower(f[1..][j]) == Lower(t[1..][j]) {
            assert f[1..][j] == f[j + 1] && t[1..][j] == t[j + 1];
          }
        }
      }
    }
  }

  lemma {:induction false} PercentThen(q: string, t: string)
    ensures Like("%" + q, t) <==> exists i :: 0 <= i <= |t| && Like(q, t[i..])
  {
    assert ("%" + q)[1..] == q;
    assert t[0..] == t;
    if t != [] {
      PercentThen(q, t[1..]);
      if Like("%" + q, t[1..]) {
        var i :| 0 <= i <= |t[1..]| && Like(q, t[1..][i..]);
        assert t[1..][i..] == t[i + 1..];
      }
      if exists i :: 0 <= i <= |t| && Like(q, t[i..]) {
        var i :| 0 <= i <= |t| && Like(q, t[i..]);
        if i > 0 {
          assert t[1..][i - 1..] == t[i..];
        }
      }
    }
  }

  /** Without wildcard characters in the filter, `'%' + filter + '%'` matches exactly the texts containing it. */
  lemma LikeIsSubstring(column: string, filter: string)
    ensures NoWildcards(filter) ==> (Like("%" + filter + "%", column) <==> ContainsCI(column, filter))
  {
    if NoWildcards(filter) {
      assert "%" + filter + "%" == "%" + (filter + "%");
      PercentThen(filter + "%", column);
      if Like("%" + filter + "%", column) {
        var i :| 0 <= i <= |column| && Like(filter + "%", column[i..]);
        LiteralThenPercent(filter, column[i..]);
      }
      if ContainsCI(column, filter) {
        var i :| 0 <= i <= |column| && PrefixCI(filter, column[i..]);
        LiteralThenPercent(filter, column[i..]);
      }
    }
  }

  /** The WHERE clause: not the initiator, active, and matching the resolved filters (NULL never matches). */
  predicate Admits(q: Query, p: Profile)
    ensures Admits(q, p) ==> p.id != q.excludeId && p.isActive
    ensures q.location.Some? && p.location.None? ==> !Admits(q, p)
    ensures q.role.Some? && p.role.None? ==> !Admits(q, p)
    ensures (q.location.Some? ==> NoWildcards(q.location.value)) && (q.role.Some? ==> NoWildcards(q.role.value)) ==>
              (Admits(q, p) <==>
                 && p.id != q.excludeId && p.isActive
                 && (q.location.Some? ==> p.location.Some? && ContainsCI(p.location.value, q.location.value))
                 && (q.role.Some? ==> p.role.Some? && ContainsCI(p.role.value, q.role.value)))
  {
    && p.id != q.excludeId
    && p.isActive
    && (q.location.Some? ==> p.location.Some? && ILike(p.location.value, q.location.value))
    && (q.role.Some? ==> p.role.Some? && ILike(p.role.value, q.role.value))
  }

  // ---------------------------------------------------------------------------
  // The cascade's consequences for the candidates the database may return
  // ---------------------------------------------------------------------------

  /** With no explicit filter, smart location confines candidates to the initiator's location. */
  lemma ImplicitLocationScopesCandidates(
    initiatorId: UserId, initiator: Profile, filters: Filters, limit: nat, p: Profile)
    requires !Truthy(filters.location) && Truthy(initiator.location)
    requires NoWildcards(initiator.location.value)
    requires Admits(BuildQuery(initiatorId, initiator, filters, limit, true), p)
    ensures p.location.Some? && ContainsCI(p.location.value, initiator.location.value)
    ensures p.id != initiatorId && p.isActive
  {
  }

  /** An explicit location filter wins over the initiator's own location. */
  lemma ExplicitLocationWins(
    initiatorId: UserId, initiator: Profile, filters: Filters, limit: nat, smartLocation: bool, p: Profile)
    requires Truthy(filters.location) && NoWildcards(filters.location.value)
    requires Admits(BuildQuery(initiatorId, initiator, filters, limit, smartLocation), p)
    ensures p.location.Some? && ContainsCI(p.location.value, filters.location.value)
  {
  }

  /** Without an explicit filter and a usable own location, the search is global: location plays no part. */
  lemma GlobalFallbackIgnoresLocation(
    initiatorId: UserId, initiator: Profile, filters: Filters, limit: nat, smartLocation: bool,
    p: Profile, elsewhere: Option<string>)
    requires !Truthy(filters.location) && !(smartLocation && Truthy(initiator.location))
    ensures Admits(BuildQuery(initiatorId, initiator, filters, limit, smartLocation), p)
        <==> Admits(BuildQuery(initiatorId, initiator, filters, limit, smartLocation), p.(location := elsewhere))
  {
  }

  // ---------------------------------------------------------------------------
  // Scoring and ranking
  // ---------------------------------------------------------------------------

  /** The result entry for one hit, scored with its own distance and follower count. */
  function ScoreHit(hit: Hit, fans: nat, log10: real -> real): (c: Candidate)
    ensures c.userId == hit.profile.id
    ensures c.matchScore == Ranking.CalculateScore(hit.distance, hit.profile.daysInactive, fans, log10)
  {
    var p := hit.profile;
    Candidate(p.id, p.fullName, p.bio, p.location, p.role,
              Ranking.CalculateScore(hit.distance, p.daysInactive, fans, log10),
              Debug(Ranking.Round4(hit.distance), fans, p.daysInactive))
  }

  /** Position `a` of the scored list goes before position `b`: higher score, ties by original position. */
  predicate Ahead(cands: seq<Candidate>, a: nat, b: nat)
    requires a < |cands| && b < |cands|
  {
    cands[a].matchScore > cands[b].matchScore
    || (cands[a].matchScore == cands[b].matchScore && a < b)
  }

  /** `order` lists positions of `cands` as a stable sort by descending score would. */
  predicate IsRankingOrder(cands: seq<Candidate>, order: seq<nat>)
  {
    && |order| == |cands|
    && (forall k :: 0 <= k < |order| ==> order[k] < |cands|)
    && (forall k, l :: 0 <= k < l < |order| ==> Ahead(cands, order[k], order[l]))
  }

  /** A ranking order is a permutation: every position appears exactly once. */
  lemma RankingOrderIsPermutation(cands: seq<Candidate>, order: seq<nat>)
    requires IsRankingOrder(cands, order)
    ensures Distinct(order)
    ensures Elements(order) == Range(|cands|)
  {
    DistinctCard(order);
    SubsetCardEq(Elements(order), Range(|cands|));
  }

  /** The ranking order is unique: a stable sort has only one outcome. */
  lemma RankingOrderUnique(cands: seq<Candidate>, o1: seq<nat>, o2: seq<nat>)
    requires IsRankingOrder(cands, o1) && IsRankingOrder(cands, o2)
    ensures o1 == o2
  {
    RankingOrderIsPermutation(cands, o1);
    RankingOrderIsPermutation(cands, o2);
    SameOrderPrefix(cands, o1, o2, |o1|);
    assert o1 == o1[..|o1|] && o2 == o2[..|o2|];
  }

  lemma {:induction false} SameOrderPrefix(cands: seq<Candidate>, o1: seq<nat>, o2: seq<nat>, k: nat)
    requires IsRankingOrder(cands, o1) && IsRankingOrder(cands, o2)
    requires Distinct(o1) && Distinct(o2) && Elements(o1) == Elements(o2)
    requires k <= |o1|
    ensures forall j :: 0 <= j < k ==> o1[j] == o2[j]
  {
    if k > 0 {
      SameOrderPrefix(cands, o1, o2, k - 1);
      var i := k - 1;
      if o1[i] != o2[i] {
        // Each order's position at index i would have to be ahead of the other's.
        assert o1[..i] == o2[..i];
        assert o2[i] !in o1[..i] && o1[i] !in o2[..i];
        assert o2[i] in Elements(o1) && o1[i] in Elements(o2);
        AheadOfUnplaced(cands, o1, o2[i], i);
        AheadOfUnplaced(cands, o2, o1[i], i);
        assert false;
      }
    }
  }

  /** The entry at index `k` of a ranking order is ahead of every listed position not placed before it. */
  lemma AheadOfUnplaced(cands: seq<Candidate>, order: seq<nat>, x: nat, k: nat)
    requires IsRankingOrder(cands, order) && k < |order|
    requires x in Elements(order) && x != order[k] && x !in order[..k]
    ensures Ahead(cands, order[k], x)
  {
    var j :| 0 <= j < |order| && order[j] == x;
  }

  /** Equal scores keep the order in which the database returned them (ascending distance). */
  lemma TiesKeepDistanceOrder(hits: seq<Hit>, cands: seq<Candidate>, order: seq<nat>, k: nat, l: nat)
    requires IsRankingOrder(cands, order) && |hits| == |cands|
    requires forall i, j :: 0 <= i < j < |hits| ==> hits[i].distance <= hits[j].distance
    requires k < l < |order| && cands[order[k]].matchScore == cands[order[l]].matchScore
    ensures hits[order[k]].distance <= hits[order[l]].distance
  {
    assert Ahead(cands, order[k], order[l]);
  }

  /** Positions `order` of `cands`, all below `bound`, listed in ranking order. */
  predicate RankedBelow(cands: seq<Candidate>, order: seq<nat>, bound: nat)
    requires bound <= |cands|
  {
    && (forall k :: 0 <= k < |order| ==> order[k] < bound)
    && (forall k, l :: 0 <= k < l < |order| ==> Ahead(cands, order[k], order[l]))
  }

  /** Inserting position `i` after every entry scoring at least as high keeps the ranking order. */
  lemma InsertKeepsRanking(cands: seq<Candidate>, order: seq<nat>, i: nat, pos: nat)
    requires i < |cands| && RankedBelow(cands, order, i) && pos <= |order|
    requires forall k :: 0 <= k < pos ==> cands[order[k]].matchScore >= cands[i].matchScore
    requires pos < |order| ==> cands[order[pos]].matchScore < cands[i].matchScore
    ensures RankedBelow(cands, order[..pos] + [i] + order[pos..], i + 1)
  {
    var next := order[..pos] + [i] + order[pos..];
    assert forall k :: 0 <= k < pos ==> next[k] == order[k];
    assert next[pos] == i;
    assert forall k :: pos < k < |next| ==> next[k] == order[k - 1];
    forall k | pos <= k < |order| ensures cands[order[k]].matchScore < cands[i].matchScore {
      if k > pos {
        assert Ahead(cands, order[pos], order[k]);
      }
    }
  }

  /** The stable sort by descending score (`list.sort(key=..., reverse=True)`), as an order of positions. */
  method StableSortDescending(cands: seq<Candidate>) returns (order: seq<nat>)
    ensures IsRankingOrder(cands, order)
  {
    order := [];
    for i := 0 to |cands|
      invariant |order| == i
      invariant RankedBelow(cands, order, i)
    {
      // Skip every entry scoring at least as high: they came first, so they stay first.
      var pos := 0;
      while pos < |order| && cands[order[pos]].matchScore >= cands[i].matchScore
        invariant 0 <= pos <= |order|
        invariant forall k :: 0 <= k < pos ==> cands[order[k]].matchScore >= cands[i].matchScore
      {
        pos := pos + 1;
      }
      InsertKeepsRanking(cands, order, i, pos);
      order := order[..pos] + [i] + order[pos..];
    }
  }

  /** The scored list, one entry per hit, in the database's order. */
  function ScoredPool(hits: seq<Hit>, fanCounts: seq<nat>, log10: real -> real): (s: seq<Candidate>)
    requires |fanCounts| == |hits|
    ensures |s| == |hits|
    ensures forall i :: 0 <= i < |hits| ==> s[i] == ScoreHit(hits[i], fanCounts[i], log10)
  {
    seq(|hits|, i requires 0 <= i < |hits| => ScoreHit(hits[i], fanCounts[i], log10))
  }

  /**
   * `RecSysService.get_recommendations` after the database calls. A missing
   * initiator yields no query and an empty list; otherwise the query follows
   * the cascade, and the result is the first `limit` entries of the hits
   * scored and stably sorted by descending score.
   */
  method GetRecommendations(
    initiatorId: UserId, initiator: Option<Profile>, filters: Filters, limit: nat, smartLocation: bool,
    hits: seq<Hit>, fanCounts: seq<nat>, log10: real -> real)
    returns (query: Option<Query>, ranked: seq<Candidate>, ghost order: seq<nat>)
    requires |fanCounts| == |hits|
    ensures initiator.None? ==> query == None && ranked == []
    ensures initiator.Some? ==> query == Some(BuildQuery(initiatorId, initiator.value, filters, limit, smartLocation))
    ensures initiator.Some? ==> query.value.poolSize == 3 * limit && query.value.excludeId == initiatorId
    ensures initiator.Some? ==> IsRankingOrder(ScoredPool(hits, fanCounts, log10), order)
    ensures |ranked| == if initiator.None? then 0 else Min(limit, |hits|)
    ensures forall k :: 0 <= k < |ranked| ==> order[k] < |hits| && ranked[k] == ScoreHit(hits[order[k]], fanCounts[order[k]], log10)
    ensures forall k, l :: 0 <= k < l < |ranked| ==> ranked[l].matchScore <= ranked[k].matchScore
  {
    order := [];
    if initiator.None? {
      return None, [], [];
    }
    query := Some(BuildQuery(initiatorId, initiator.value, filters, limit, smartLocation));
    if hits == [] {
      return query, [], [];
    }
    var scored: seq<Candidate> := [];
    for i := 0 to |hits|
      invariant |scored| == i
      invariant forall k :: 0 <= k < i ==> scored[k] == ScoreHit(hits[k], fanCounts[k], log10)
    {
      scored := scored + [ScoreHit(hits[i], fanCounts[i], log10)];
    }
    assert scored == ScoredPool(hits, fanCounts, log10);
    var sorted := StableSortDescending(scored);
    order := sorted;
    var n := Min(limit, |scored|);
    ranked := seq(n, k requires 0 <= k < n => scored[sorted[k]]);
    forall k, l | 0 <= k < l < |ranked| ensures ranked[l].matchScore <= ranked[k].matchScore {
      assert Ahead(scored, order[k], order[l]);
    }
  }
}
