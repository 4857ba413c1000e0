/** What one reservation hands out, when it fails, and how an entry may move in one step. */
module NumberBatches {
  import opened Prelude
  import opened NumberFormat
  import opened Numbering
  import opened NumberingRuns
  import opened NumberingTheorems

  // ---------------------------------------------------------------------------
  // The free positions of the progression
  // ---------------------------------------------------------------------------

  /** The ordinals among the first `m` of the progression whose numbers are free, in order. */
  ghost function FreeOnes(claims: map<ClaimKey, Claim>, s: Series, period: string, scope: Scope, first: nat, m: nat)
    : seq<nat>
  {
    if m == 0 then []
    else
      var o := At(first, s.step, m - 1);
      FreeOnes(claims, s, period, scope, first, m - 1) + (if Occupied(claims, s, period, scope, o) then [] else [o])
  }

  ghost predicate FreeAt(claims: map<ClaimKey, Claim>, s: Series, period: string, scope: Scope, first: nat, j: nat) {
    !Occupied(claims, s, period, scope, At(first, s.step, j))
  }

  ghost predicate Increasing(ordinals: seq<nat>) {
    forall i, j :: 0 <= i < j < |ordinals| ==> ordinals[i] < ordinals[j]
  }

  ghost predicate Between(ordinals: seq<nat>, low: nat, high: nat) {
    forall i :: 0 <= i < |ordinals| ==> low <= ordinals[i] < high
  }

  /** An ordinal is one of the first `m` of the progression, and its number is free. */
  ghost predicate FreePlace(claims: map<ClaimKey, Claim>, s: Series, period: string, scope: Scope, first: nat, m: nat,
                            o: nat)
  {
    exists j: nat :: j < m && o == At(first, s.step, j) && FreeAt(claims, s, period, scope, first, j)
  }

  lemma {:induction false} FreeOnesIncrease(claims: map<ClaimKey, Claim>, s: Series, period: string, scope: Scope,
                                            first: nat, m: nat)
    requires s.step >= 1
    ensures var free := FreeOnes(claims, s, period, scope, first, m);
            Increasing(free) && Between(free, first, At(first, s.step, m))
    decreases m
  {
    hide Occupied;
    if m > 0 {
      FreeOnesIncrease(claims, s, period, scope, first, m - 1);
      AtGrows(first, s.step, 0, m - 1);
      AtGrows(first, s.step, m - 1, m);
    }
  }

  /** They are exactly the free ones among the first `m` ordinals of the progression. */
  lemma {:induction false} FreeOnesMeaning(claims: map<ClaimKey, Claim>, s: Series, period: string, scope: Scope,
                                           first: nat, m: nat, o: nat)
    ensures o in FreeOnes(claims, s, period, scope, first, m) <==> FreePlace(claims, s, period, scope, first, m, o)
    decreases m
  {
    hide Occupied, At;
    if m > 0 {
      FreeOnesMeaning(claims, s, period, scope, first, m - 1, o);
      var last := At(first, s.step, m - 1);
      if FreePlace(claims, s, period, scope, first, m - 1, o) {
        var j: nat :| j < m - 1 && o == At(first, s.step, j) && FreeAt(claims, s, period, scope, first, j);
        assert FreePlace(claims, s, period, scope, first, m, o);
      }
      if o == last && FreeAt(claims, s, period, scope, first, m - 1) {
        assert FreePlace(claims, s, period, scope, first, m, o);
      }
    }
  }

  /** The positions that are not free hold distinct claims of the scope. */
  lemma {:induction false} OccupiedFit(claims: map<ClaimKey, Claim>, s: Series, period: string, scope: Scope,
                                       first: nat,
                                       m: nat, taken: set<ClaimKey>)
    requires SeriesOk(s)
    requires forall j: nat :: j < m && Occupied(claims, s, period, scope, At(first, s.step, j)) ==>
                                TakenAt(s, period, scope, first, j, taken)
    ensures m <= |FreeOnes(claims, s, period, scope, first, m)| + |taken|
    decreases m
  {
    hide Occupied, OrdinalClaim;
    if m > 0 {
      if Occupied(claims, s, period, scope, At(first, s.step, m - 1)) {
        var last := OrdinalClaim(s, period, scope, At(first, s.step, m - 1));
        assert TakenAt(s, period, scope, first, m - 1, taken);
        forall j: nat | j < m - 1 && Occupied(claims, s, period, scope, At(first, s.step, j))
          ensures TakenAt(s, period, scope, first, j, taken - {last})
        {
          assert TakenAt(s, period, scope, first, j, taken);
          AtGrows(first, s.step, j, m - 1);
          ClaimsApart(s, period, scope, At(first, s.step, j), At(first, s.step, m - 1));
        }
        OccupiedFit(claims, s, period, scope, first, m - 1, taken - {last});
      } else {
        OccupiedFit(claims, s, period, scope, first, m - 1, taken);
      }
    }
  }

  lemma {:induction false} OccupiedWithinScope(claims: map<ClaimKey, Claim>, s: Series, period: string, scope: Scope,
                                               first: nat, m: nat)
    requires SeriesOk(s)
    ensures m <= |FreeOnes(claims, s, period, scope, first, m)| + |ScopeClaims(claims, s.registry, scope)|
  {
    hide NumberOf, NumberKey, FreeOnes;
    OccupiedFit(claims, s, period, scope, first, m, ScopeClaims(claims, s.registry, scope));
  }

  /** Two claim sets that agree on a stretch of the progression leave the same of it free. */
  lemma {:induction false} FreeSame(a: map<ClaimKey, Claim>, b: map<ClaimKey, Claim>, s: Series, period: string,
                                    scope: Scope, first: nat, m: nat)
    requires forall j: nat :: j < m ==> SameAt(a, b, s, period, scope, first, j)
    ensures FreeOnes(a, s, period, scope, first, m) == FreeOnes(b, s, period, scope, first, m)
  {
    hide Occupied;
    if m > 0 {
      FreeSame(a, b, s, period, scope, first, m - 1);
      assert SameAt(a, b, s, period, scope, first, m - 1);
    }
  }

  ghost predicate SameAt(a: map<ClaimKey, Claim>, b: map<ClaimKey, Claim>, s: Series, period: string, scope: Scope,
                         first: nat, j: nat)
  {
    Occupied(a, s, period, scope, At(first, s.step, j)) <==> Occupied(b, s, period, scope, At(first, s.step, j))
  }

  lemma {:induction false} FreeJoin(claims: map<ClaimKey, Claim>, s: Series, period: string, scope: Scope, first: nat,
                                    k: nat, m: nat)
    ensures FreeOnes(claims, s, period, scope, first, k + m) ==
            FreeOnes(claims, s, period, scope, first, k) + FreeOnes(claims, s, period, scope, At(first, s.step, k), m)
    decreases m
  {
    hide Occupied;
    if m > 0 {
      FreeJoin(claims, s, period, scope, first, k, m - 1);
      AtSum(first, s.step, k, m - 1);
    }
  }

  lemma {:induction false} NoneFree(claims: map<ClaimKey, Claim>, s: Series, period: string, scope: Scope, first: nat,
                                    k: nat)
    requires Skipped(claims, s, period, scope, first, k)
    ensures FreeOnes(claims, s, period, scope, first, k) == []
    decreases k
  {
    hide Occupied, Render;
    if k > 0 {
      assert forall j: nat :: j < k - 1 ==> SkippedAt(claims, s, period, scope, first, j);
      NoneFree(claims, s, period, scope, first, k - 1);
      assert SkippedAt(claims, s, period, scope, first, k - 1);
    }
  }

  /** `k` occupied positions, a free one, and what follows. */
  lemma {:induction false} FirstFree(claims: map<ClaimKey, Claim>, s: Series, period: string, scope: Scope, first: nat,
                                     k: nat, m: nat)
    requires Skipped(claims, s, period, scope, first, k)
    requires !Occupied(claims, s, period, scope, At(first, s.step, k))
    ensures At(first, s.step, k + 1 + m) == At(At(first, s.step, k) + s.step, s.step, m)
    ensures FreeOnes(claims, s, period, scope, first, k + 1 + m) ==
            [At(first, s.step, k)] + FreeOnes(claims, s, period, scope, At(first, s.step, k) + s.step, m)
  {
    hide Occupied, Skipped;
    AtSum(first, s.step, k + 1, m);
    NoneFree(claims, s, period, scope, first, k);
    FreeJoin(claims, s, period, scope, first, k + 1, m);
  }

  /** Claiming an ordinal's number leaves what lies beyond it as it was. */
  lemma {:induction false} BeyondInsert(a: map<ClaimKey, Claim>, z: map<ClaimKey, Claim>, s: Series, period: string,
                                        scope: Scope, o: nat, m: nat)
    requires SeriesOk(s) && z.Keys == a.Keys + {OrdinalClaim(s, period, scope, o)}
    ensures FreeOnes(a, s, period, scope, o + s.step, m) == FreeOnes(z, s, period, scope, o + s.step, m)
    ensures SameAt(a, z, s, period, scope, o + s.step, m)
  {
    hide OrdinalClaim;
    var first := o + s.step;
    forall j: nat | j <= m
      ensures SameAt(a, z, s, period, scope, first, j)
    {
      AtGrows(first, s.step, 0, j);
      ClaimsApart(s, period, scope, At(first, s.step, j), o);
    }
    FreeSame(a, z, s, period, scope, first, m);
  }

  // ---------------------------------------------------------------------------
  // What a batch hands out
  // ---------------------------------------------------------------------------

  ghost function EntriesFor(s: Series, r: ReserveRequest, hours: Option<nat>, ordinals: seq<nat>): seq<Entry> {
    seq(|ordinals|, i requires 0 <= i < |ordinals| => EntryFor(s, r, hours, ordinals[i]))
  }

  lemma {:induction false} EntriesForMore(s: Series, r: ReserveRequest, hours: Option<nat>, o: nat, ordinals: seq<nat>)
    ensures EntriesFor(s, r, hours, [o] + ordinals) == [EntryFor(s, r, hours, o)] + EntriesFor(s, r, hours, ordinals)
  {
    hide EntryFor;
  }

  /**
   The batch succeeds and adds the entries of exactly the free ordinals among the first `m` of the
   progression, in order; there are `n` of them, and the counter is left right behind the last.
   */
  ghost predicate TakesTheFree(b: Book, s: Series, r: ReserveRequest, hours: Option<nat>, n: nat, next: nat, m: nat)
    requires s.step >= 1
  {
    var a := Allocate(b, s, r, hours, n, next);
    var free := FreeOnes(b.claims, s, r.period, ScopeFor(s, r), next, m);
    && a.Ok?
    && a.value.0.entries == b.entries + EntriesFor(s, r, hours, free)
    && |free| == n && Between(free, next, MAX_ORDINAL + 1)
    && a.value.1 == At(next, s.step, m)
    && (m > 0 ==> FreeAt(b.claims, s, r.period, ScopeFor(s, r), next, m - 1))
  }

  lemma {:induction false} TakesNothing(b: Book, s: Series, r: ReserveRequest, hours: Option<nat>, next: nat)
    requires s.step >= 1
    ensures TakesTheFree(b, s, r, hours, 0, next, 0)
  {
  }

  /** One turn of the batch loop: `k` occupied ordinals, a free one, then the rest of the batch. */
  lemma {:induction false} TakesFirst(b: Book, s: Series, r: ReserveRequest, hours: Option<nat>, n: nat, next: nat,
                                      k: nat, rest: nat)
    requires SeriesOk(s) && n > 0 && Allocate(b, s, r, hours, n, next).Ok?
    requires Skipped(b.claims, s, r.period, ScopeFor(s, r), next, k)
    requires StopsAt(b.claims, s, r.period, ScopeFor(s, r), At(next, s.step, k),
                     NextFree(b.claims, s, r.period, ScopeFor(s, r), next))
    requires var o := At(next, s.step, k);
             var y := Insert(b, EntryFor(s, r, hours, o), OrdinalClaim(s, r.period, ScopeFor(s, r), o));
             TakesTheFree(y, s, r, hours, n - 1, o + s.step, rest)
    ensures TakesTheFree(b, s, r, hours, n, next, k + 1 + rest)
  {
    hide NumberOf, Render, EntryFor, NumberUsed, EntriesFor, FreeOnes, Between, OrdinalClaim, NextFree, At, Skipped;
    var scope, o := ScopeFor(s, r), At(next, s.step, k);
    var y := Insert(b, EntryFor(s, r, hours, o), OrdinalClaim(s, r.period, scope, o));
    FirstFree(b.claims, s, r.period, scope, next, k, rest);
    assert y.claims.Keys == b.claims.Keys + {OrdinalClaim(s, r.period, scope, o)};
    BeyondInsert(b.claims, y.claims, s, r.period, scope, o, rest);
    var free := FreeOnes(y.claims, s, r.period, scope, o + s.step, rest);
    EntriesForMore(s, r, hours, o, free);
    AtGrows(next, s.step, 0, k);
    AtZero(next, s.step);
    FirstBetween(o, free, next, o + s.step, MAX_ORDINAL + 1);
    if rest > 0 {
      FirstFree(b.claims, s, r.period, scope, next, k, rest - 1);
      BeyondInsert(b.claims, y.claims, s, r.period, scope, o, rest - 1);
    }
  }

  lemma {:induction false} AtZero(first: nat, step: nat)
    ensures At(first, step, 0) == first
  {
  }

  lemma {:induction false} FirstBetween(o: nat, ordinals: seq<nat>, low: nat, later: nat, high: nat)
    requires low <= o < high && low <= later && Between(ordinals, later, high)
    ensures Between([o] + ordinals, low, high)
  {
  }

  /** A batch of any size hands out exactly the free ordinals it comes across. */
  lemma {:induction false} BatchTakesTheFree(b: Book, s: Series, r: ReserveRequest, hours: Option<nat>, n: nat,
                                             next: nat)
      returns (m: nat)
    requires SeriesOk(s) && Allocate(b, s, r, hours, n, next).Ok?
    ensures TakesTheFree(b, s, r, hours, n, next, m)
    decreases n
  {
    hide NumberOf, NumberClaim, Render, EntryFor, NumberUsed, TakesTheFree;
    var scope := ScopeFor(s, r);
    if n == 0 {
      m := 0;
      TakesNothing(b, s, r, hours, next);
    } else {
      var k := NextFreeMeaning(b.claims, s, r.period, scope, next);
      var o := At(next, s.step, k);
      var y := Insert(b, EntryFor(s, r, hours, o), OrdinalClaim(s, r.period, scope, o));
      var rest := BatchTakesTheFree(y, s, r, hours, n - 1, o + s.step);
      TakesFirst(b, s, r, hours, n, next, k, rest);
      m := k + 1 + rest;
    }
  }

  /**
   So the ordinals of a batch lie on the progression between the counter of before and the counter of
   after, they increase, and they are exactly the ordinals there whose numbers were free.
   */
  lemma {:induction false} BatchOrdinals(b: Book, s: Series, r: ReserveRequest, hours: Option<nat>, n: nat, next: nat)
      returns (m: nat)
    requires SeriesOk(s) && Allocate(b, s, r, hours, n, next).Ok?
    ensures var (z, last) := Allocate(b, s, r, hours, n, next).value;
            && last == At(next, s.step, m)
            && |z.entries| == |b.entries| + n && z.entries[..|b.entries|] == b.entries
            && (forall i :: |b.entries| <= i < |z.entries| ==> HandedOut(b, s, r, next, z.entries[i]))
            && (forall i, j :: |b.entries| <= i < j < |z.entries| ==> z.entries[i].ordinal < z.entries[j].ordinal)
            && (forall o: nat :: IsAmong(z.entries, |b.entries|, o) <==>
                                 FreePlace(b.claims, s, r.period, ScopeFor(s, r), next, m, o))
  {
    hide NumberOf, Occupied, FreeOnes, Allocate, FreePlace;
    m := BatchTakesTheFree(b, s, r, hours, n, next);
    var z := Allocate(b, s, r, hours, n, next).value.0;
    var free := FreeOnes(b.claims, s, r.period, ScopeFor(s, r), next, m);
    FreeOnesIncrease(b.claims, s, r.period, ScopeFor(s, r), next, m);
    assert forall i :: |b.entries| <= i < |z.entries| ==> z.entries[i] == EntryFor(s, r, hours, free[i - |b.entries|]);
    forall o: nat
      ensures IsAmong(z.entries, |b.entries|, o) <==> FreePlace(b.claims, s, r.period, ScopeFor(s, r), next, m, o)
    {
      FreeOnesMeaning(b.claims, s, r.period, ScopeFor(s, r), next, m, o);
      if i: nat :| i < |free| && free[i] == o {
        assert z.entries[|b.entries| + i].ordinal == o;
      }
    }
  }

  ghost predicate IsAmong(entries: seq<Entry>, from: nat, ordinal: nat) {
    exists i :: from <= i < |entries| && entries[i].ordinal == ordinal
  }

  /** An entry of a batch: in the asked scope, written as the series writes its ordinal. */
  ghost predicate HandedOut(b: Book, s: Series, r: ReserveRequest, next: nat, e: Entry) {
    && e.series == r.series && e.period == r.period && e.scope == ScopeFor(s, r)
    && e.state.Reserved? && e.owner == r.actor
    && e.number == NumberOf(s.layout, r.period, e.ordinal)
    && next <= e.ordinal <= MAX_ORDINAL
  }

  /** A batch skips at most as many ordinals as the scope has occupied numbers. */
  lemma {:induction false} BatchSkipsAtMostOccupied(b: Book, s: Series, r: ReserveRequest, hours: Option<nat>, n: nat,
                                                    next: nat)
    requires SeriesOk(s) && Allocate(b, s, r, hours, n, next).Ok?
    ensures Allocate(b, s, r, hours, n, next).value.1 <=
            At(next, s.step, n + |ScopeClaims(b.claims, s.registry, ScopeFor(s, r))|)
  {
    hide Allocate, NumberOf, NumberClaim, FreeOnes, EntriesFor;
    var scope := ScopeFor(s, r);
    var m := BatchTakesTheFree(b, s, r, hours, n, next);
    OccupiedWithinScope(b.claims, s, r.period, scope, next, m);
    AtGrows(next, s.step, m, n + |ScopeClaims(b.claims, s.registry, scope)|);
  }

  // ---------------------------------------------------------------------------
  // When a batch fails
  // ---------------------------------------------------------------------------

  /**
   What stands in the way at position `m`: the limit, the length of the number, or a free number that
   an entry of the period has in whatever scope. Occupied numbers do not; they are skipped.
   */
  ghost function Obstacle(b: Book, s: Series, r: ReserveRequest, next: nat, m: nat): Option<Refusal> {
    var o := At(next, s.step, m);
    if o > MAX_ORDINAL then Some(Exhausted)
    else if Render(s.layout, r.period, o).None? then Some(TooLong)
    else if FreeAt(b.claims, s, r.period, ScopeFor(s, r), next, m)
            && NumberUsed(b.entries, r.series, r.period, NumberOf(s.layout, r.period, o)) then Some(NumberTaken)
    else None
  }

  /** Position `m` is the first with an obstacle, and a batch of `n` gets there: fewer positions before it are free. */
  ghost predicate FailsAt(b: Book, s: Series, r: ReserveRequest, n: nat, next: nat, m: nat, e: Refusal) {
    && |FreeOnes(b.claims, s, r.period, ScopeFor(s, r), next, m)| < n
    && Obstacle(b, s, r, next, m) == Some(e)
    && forall j: nat :: j < m ==> Obstacle(b, s, r, next, j).None?
  }

  lemma {:induction false} SkippedIsNoObstacle(b: Book, s: Series, r: ReserveRequest, next: nat, k: nat, j: nat)
    requires Skipped(b.claims, s, r.period, ScopeFor(s, r), next, k) && j < k
    ensures Obstacle(b, s, r, next, j).None?
  {
    hide NumberUsed, Render, Occupied, NumberOf;
    assert SkippedAt(b.claims, s, r.period, ScopeFor(s, r), next, j);
  }

  /** Behind an inserted entry the obstacles are those of before. */
  lemma {:induction false} ObstacleBehind(b: Book, s: Series, r: ReserveRequest, hours: Option<nat>, next: nat, k: nat,
                                          m: nat)
    requires SeriesOk(s)
    ensures var o := At(next, s.step, k);
            var y := Insert(b, EntryFor(s, r, hours, o), OrdinalClaim(s, r.period, ScopeFor(s, r), o));
            Obstacle(b, s, r, next, k + 1 + m) == Obstacle(y, s, r, o + s.step, m)
  {
    hide NumberOf, Render, Occupied, OrdinalClaim;
    var o := At(next, s.step, k);
    var y := Insert(b, EntryFor(s, r, hours, o), OrdinalClaim(s, r.period, ScopeFor(s, r), o));
    AtSum(next, s.step, k + 1, m);
    AtGrows(next, s.step, k, k + 1 + m);
    assert y.claims.Keys == b.claims.Keys + {OrdinalClaim(s, r.period, ScopeFor(s, r), o)};
    BeyondInsert(b.claims, y.claims, s, r.period, ScopeFor(s, r), o, m);
    UsedBehind(b, s, r, hours, o, At(next, s.step, k + 1 + m));
  }

  lemma {:induction false} UsedBehind(b: Book, s: Series, r: ReserveRequest, hours: Option<nat>, o: nat, later: nat)
    requires SeriesOk(s) && later != o
    ensures var number := NumberOf(s.layout, r.period, later);
            NumberUsed(b.entries + [EntryFor(s, r, hours, o)], r.series, r.period, number) <==>
            NumberUsed(b.entries, r.series, r.period, number)
  {
    hide NumberOf, OrdinalCount;
    var entries, number := b.entries + [EntryFor(s, r, hours, o)], NumberOf(s.layout, r.period, later);
    KeyInjective(s.layout, r.period, o, later);
    if NumberUsed(b.entries, r.series, r.period, number) {
      var i :| 0 <= i < |b.entries| && b.entries[i].series == r.series && b.entries[i].period == r.period
               && b.entries[i].number == number;
      assert entries[i].number == number;
    }
  }

  /** The batch stops where the search does, at the first obstacle. */
  lemma {:induction false} FailsHere(b: Book, s: Series, r: ReserveRequest, hours: Option<nat>, n: nat, next: nat,
                                     k: nat,
                                     e: Refusal)
    requires s.step >= 1 && n > 0 && Skipped(b.claims, s, r.period, ScopeFor(s, r), next, k)
    requires StopsAt(b.claims, s, r.period, ScopeFor(s, r), At(next, s.step, k),
                     NextFree(b.claims, s, r.period, ScopeFor(s, r), next))
    requires Obstacle(b, s, r, next, k).Some?
    ensures Allocate(b, s, r, hours, n, next) == Err(e) <==> exists m: nat :: FailsAt(b, s, r, n, next, m, e)
  {
    hide NumberOf, Render, Occupied, NumberUsed, NextFree, FreeOnes, Skipped;
    forall j: nat | j < k
      ensures Obstacle(b, s, r, next, j).None?
    {
      SkippedIsNoObstacle(b, s, r, next, k, j);
    }
    NoneFree(b.claims, s, r.period, ScopeFor(s, r), next, k);
    var why := Obstacle(b, s, r, next, k).value;
    assert FailsAt(b, s, r, n, next, k, why);
    assert Allocate(b, s, r, hours, n, next) == Err(why);
    if m: nat :| FailsAt(b, s, r, n, next, m, e) {
      assert m == k;
    }
  }

  /** Without an obstacle the first free number is handed out. */
  lemma {:induction false} PassesHere(b: Book, s: Series, r: ReserveRequest, hours: Option<nat>, n: nat, next: nat,
                                      k: nat)
      returns (o: nat)
    requires s.step >= 1 && n > 0
    requires StopsAt(b.claims, s, r.period, ScopeFor(s, r), At(next, s.step, k),
                     NextFree(b.claims, s, r.period, ScopeFor(s, r), next))
    requires Obstacle(b, s, r, next, k).None?
    ensures o == At(next, s.step, k) && FreeAt(b.claims, s, r.period, ScopeFor(s, r), next, k)
    ensures var y := Insert(b, EntryFor(s, r, hours, o), OrdinalClaim(s, r.period, ScopeFor(s, r), o));
            Allocate(b, s, r, hours, n, next) == Allocate(y, s, r, hours, n - 1, o + s.step)
  {
    hide NumberOf, Render, Occupied, OrdinalClaim, NumberUsed, NextFree;
    o := At(next, s.step, k);
  }

  lemma {:induction false} FailsBehind(b: Book, s: Series, r: ReserveRequest, hours: Option<nat>, n: nat, next: nat,
                                       k: nat, m: nat, e: Refusal)
    requires SeriesOk(s) && n > 0 && Skipped(b.claims, s, r.period, ScopeFor(s, r), next, k)
    requires FreeAt(b.claims, s, r.period, ScopeFor(s, r), next, k) && Obstacle(b, s, r, next, k).None?
    ensures var o := At(next, s.step, k);
            var y := Insert(b, EntryFor(s, r, hours, o), OrdinalClaim(s, r.period, ScopeFor(s, r), o));
            FailsAt(b, s, r, n, next, k + 1 + m, e) <==> FailsAt(y, s, r, n - 1, o + s.step, m, e)
  {
    hide Obstacle, Occupied, FreeOnes, Skipped, OrdinalClaim, EntryFor, At;
    var o := At(next, s.step, k);
    var y := Insert(b, EntryFor(s, r, hours, o), OrdinalClaim(s, r.period, ScopeFor(s, r), o));
    FirstFree(b.claims, s, r.period, ScopeFor(s, r), next, k, m);
    assert y.claims.Keys == b.claims.Keys + {OrdinalClaim(s, r.period, ScopeFor(s, r), o)};
    BeyondInsert(b.claims, y.claims, s, r.period, ScopeFor(s, r), o, m);
    forall j: nat | j < k
      ensures Obstacle(b, s, r, next, j).None?
    {
      SkippedIsNoObstacle(b, s, r, next, k, j);
    }
    ObstacleBehind(b, s, r, hours, next, k, m);
    if FailsAt(y, s, r, n - 1, o + s.step, m, e) {
      forall j: nat | j < k + 1 + m
        ensures Obstacle(b, s, r, next, j).None?
      {
        if j > k {
          ObstacleBehind(b, s, r, hours, next, k, j - k - 1);
        }
      }
    }
    if FailsAt(b, s, r, n, next, k + 1 + m, e) {
      var from := o + s.step;
      forall j: nat | j < m
        ensures Obstacle(y, s, r, from, j).None?
      {
        ObstacleBehind(b, s, r, hours, next, k, j);
      }
    }
  }

  /**
   Exactly when a batch fails, and why, in terms of the register before it: at the first obstacle on
   the progression, if fewer numbers than asked for are free in front of it.
   */
  lemma {:induction false} BatchOutcome(b: Book, s: Series, r: ReserveRequest, hours: Option<nat>, n: nat, next: nat,
                                        e: Refusal)
    requires SeriesOk(s)
    ensures Allocate(b, s, r, hours, n, next) == Err(e) <==> exists m: nat :: FailsAt(b, s, r, n, next, m, e)
    decreases n
  {
    hide NumberOf, NumberClaim, Render, Obstacle, FreeOnes, EntryFor, NumberUsed, Skipped;
    if n > 0 {
      var scope := ScopeFor(s, r);
      var k := NextFreeMeaning(b.claims, s, r.period, scope, next);
      forall j: nat | j < k
        ensures Obstacle(b, s, r, next, j).None?
      {
        SkippedIsNoObstacle(b, s, r, next, k, j);
      }
      if Obstacle(b, s, r, next, k).Some? {
        FailsHere(b, s, r, hours, n, next, k, e);
      } else {
        var o := PassesHere(b, s, r, hours, n, next, k);
        var y := Insert(b, EntryFor(s, r, hours, o), OrdinalClaim(s, r.period, scope, o));
        BatchOutcome(y, s, r, hours, n - 1, o + s.step, e);
        if m: nat :| FailsAt(b, s, r, n, next, m, e) {
          assert m > k;
          FailsBehind(b, s, r, hours, n, next, k, m - k - 1, e);
        }
        var from, left := o + s.step, n - 1;
        if m: nat :| FailsAt(y, s, r, left, from, m, e) {
          FailsBehind(b, s, r, hours, n, next, k, m, e);
        }
      }
    }
  }

  /** A batch runs out only when the limit is nearer than the numbers asked for and those occupied. */
  lemma {:induction false} ExhaustedMeansFull(b: Book, s: Series, r: ReserveRequest, hours: Option<nat>, n: nat,
                                              next: nat)
    requires SeriesOk(s) && Allocate(b, s, r, hours, n, next) == Err(Exhausted)
    ensures At(next, s.step, n + |ScopeClaims(b.claims, s.registry, ScopeFor(s, r))|) > MAX_ORDINAL
  {
    hide Allocate, NumberOf, NumberClaim, FreeOnes, NumberUsed;
    BatchOutcome(b, s, r, hours, n, next, Exhausted);
    var m: nat :| FailsAt(b, s, r, n, next, m, Exhausted);
    ExhaustedIsFar(b, s, r, n, next, m);
  }

  lemma {:induction false} ExhaustedIsFar(b: Book, s: Series, r: ReserveRequest, n: nat, next: nat, m: nat)
    requires SeriesOk(s) && FailsAt(b, s, r, n, next, m, Exhausted)
    ensures At(next, s.step, n + |ScopeClaims(b.claims, s.registry, ScopeFor(s, r))|) > MAX_ORDINAL
  {
    hide NumberOf, NumberClaim, FreeOnes, NumberUsed;
    OccupiedWithinScope(b.claims, s, r.period, ScopeFor(s, r), next, m);
    AtGrows(next, s.step, m, n + |ScopeClaims(b.claims, s.registry, ScopeFor(s, r))|);
  }

  // ---------------------------------------------------------------------------
  // When a reservation fails
  // ---------------------------------------------------------------------------

  /** The checks of `reserve` in front of the batch, for a key not used before. */
  ghost predicate Admitted(b: Book, r: ReserveRequest) {
    && r.series in b.series && r.permitted && ReceiptKey(r.series, r.actor, r.key) !in b.receipts
    && b.series[r.series].active && r.scopeValid && r.count <= b.series[r.series].maxBatch
    && HoursAllowed(b.series[r.series], HoursFor(b.series[r.series], r))
  }

  /** The reservation fails at position `m` of the progression, counted from where its counter stands. */
  ghost predicate ReservationFailsAt(b: Book, r: ReserveRequest, m: nat, e: Refusal)
    requires r.series in b.series
  {
    var s := b.series[r.series];
    FailsAt(b, s, r, r.count, CounterOf(b, s, CounterKey(r.series, r.period)), m, e)
  }

  ghost predicate ReservationFails(b: Book, r: ReserveRequest, e: Refusal)
    requires r.series in b.series
  {
    exists m: nat :: ReservationFailsAt(b, r, m, e)
  }

  /**
   Exactly when a reservation is refused for want of a number, in terms of the register and the request:
   `NumberTaken` if and only if it passed the checks and the first obstacle it gets to is a number free
   in the asked scope that an entry of the period already has. It goes through if and only if it passed
   the checks and gets to no obstacle.
   */
  lemma {:induction false} ReserveOutcome(b: Book, r: ReserveRequest, e: Refusal)
    requires SeriesAllOk(b) && (e.NumberTaken? || e.Exhausted? || e.TooLong?)
    ensures Reserve(b, r) == Err(e) <==> Admitted(b, r) && ReservationFails(b, r, e)
    ensures Admitted(b, r) ==> (Reserve(b, r).Ok? <==> forall why :: !ReservationFails(b, r, why))
  {
    hide Allocate, FailsAt, LayoutOk;
    if Admitted(b, r) {
      var s := b.series[r.series];
      assert SeriesOk(s);
      var next := CounterOf(b, s, CounterKey(r.series, r.period));
      var a := Allocate(b, s, r, HoursFor(s, r), r.count, next);
      forall why
        ensures a == Err(why) <==> ReservationFails(b, r, why)
      {
        BatchOutcome(b, s, r, HoursFor(s, r), r.count, next, why);
        if m: nat :| FailsAt(b, s, r, r.count, next, m, why) {
          assert ReservationFailsAt(b, r, m, why);
        }
        if m: nat :| ReservationFailsAt(b, r, m, why) {
          assert FailsAt(b, s, r, r.count, next, m, why);
        }
      }
      if a.Err? {
        assert ReservationFails(b, r, a.error);
      }
    }
  }

  // ---------------------------------------------------------------------------
  // A number taken in another scope
  // ---------------------------------------------------------------------------

  /** An entry of the period that was written under other settings of its series. */
  ghost predicate Rewritten(e: Entry, s: Series, c: CounterKey) {
    InPeriod(e, c) && e.number != NumberOf(s.layout, e.period, e.ordinal)
  }

  /**
   In a consistent register a number at or above the counter that is free in a scope has been issued
   in the period exactly when an entry written under other settings carries it; such an entry is in
   another scope.
   */
  lemma {:induction false} TakenElsewhere(b: Book, c: CounterKey, scope: Scope, o: nat)
    requires Inv(b) && c.series in b.series && o >= CounterOf(b, b.series[c.series], c)
    requires !Occupied(b.claims, b.series[c.series], c.period, scope, o)
    ensures var s := b.series[c.series];
            NumberUsed(b.entries, c.series, c.period, NumberOf(s.layout, c.period, o)) <==>
            exists i :: 0 <= i < |b.entries| && Rewritten(b.entries[i], s, c)
                        && b.entries[i].number == NumberOf(s.layout, c.period, o)
    ensures var s := b.series[c.series];
            forall i | 0 <= i < |b.entries| && InPeriod(b.entries[i], c) ::
              b.entries[i].number == NumberOf(s.layout, c.period, o) ==> b.entries[i].scope != scope
  {
    hide NumberOf, NumberClaim, Render;
    var s := b.series[c.series];
    assert SeriesOk(s);
    forall i: nat | i < |b.entries| && InPeriod(b.entries[i], c)
                    && b.entries[i].number == NumberOf(s.layout, c.period, o)
      ensures Rewritten(b.entries[i], s, c) && b.entries[i].scope != scope
    {
      assert EntryAt(b, i);
      assert CounterKey(b.entries[i].series, b.entries[i].period) == c;
      KeyInjective(s.layout, c.period, b.entries[i].ordinal, o);
    }
  }

  ghost predicate Steady(b: Book, s: Series, c: CounterKey) {
    forall i :: 0 <= i < |b.entries| ==> !Rewritten(b.entries[i], s, c)
  }

  /** While the settings that shape numbers are those of every entry issued, no number is ever taken elsewhere. */
  lemma {:induction false} SteadyNeverTaken(b: Book, r: ReserveRequest)
    requires Inv(b) && r.series in b.series && Steady(b, b.series[r.series], CounterKey(r.series, r.period))
    ensures Reserve(b, r) != Err(NumberTaken)
  {
    hide FailsAt, Reserve, Inv, Steady, SeriesOk;
    InvSeries(b);
    ReserveOutcome(b, r, NumberTaken);
    if ReservationFails(b, r, NumberTaken) {
      var m: nat :| ReservationFailsAt(b, r, m, NumberTaken);
      SteadyPasses(b, r, m);
    }
  }

  lemma {:induction false} InvSeries(b: Book)
    requires Inv(b)
    ensures SeriesAllOk(b)
  {
  }

  lemma {:induction false} SteadyPasses(b: Book, r: ReserveRequest, m: nat)
    requires Inv(b) && r.series in b.series && Steady(b, b.series[r.series], CounterKey(r.series, r.period))
    ensures !ReservationFailsAt(b, r, m, NumberTaken)
  {
    hide NumberOf, Render, Inv, FreeOnes, Occupied, NumberUsed, Rewritten;
    var s, c := b.series[r.series], CounterKey(r.series, r.period);
    var next := CounterOf(b, s, c);
    if Obstacle(b, s, r, next, m) == Some(NumberTaken) {
      InvSeries(b);
      assert SeriesOk(s);
      AtGrows(next, s.step, 0, m);
      TakenElsewhere(b, c, ScopeFor(s, r), At(next, s.step, m));
    }
  }

  /**
   The promise of the search: with settings unchanged, numbers short enough and the limit far
   enough away, a reservation of any size that passes the checks is accepted.
   */
  lemma {:induction false} BatchSucceeds(b: Book, r: ReserveRequest)
    requires Inv(b) && Admitted(b, r) && Steady(b, b.series[r.series], CounterKey(r.series, r.period))
    requires forall o: nat :: o <= MAX_ORDINAL ==> Render(b.series[r.series].layout, r.period, o).Some?
    requires var s := b.series[r.series];
             var next := CounterOf(b, s, CounterKey(r.series, r.period));
             At(next, s.step, r.count + |ScopeClaims(b.claims, s.registry, ScopeFor(s, r))|) <= MAX_ORDINAL
    ensures Reserve(b, r).Ok?
  {
    hide Reserve, Inv, Steady, FreeOnes, NumberOf, Occupied, NumberUsed, HoursAllowed, HoursFor;
    InvSeries(b);
    var s := b.series[r.series];
    assert SeriesOk(s);
    ReserveOutcome(b, r, Exhausted);
    forall why
      ensures !ReservationFails(b, r, why)
    {
      if m: nat :| ReservationFailsAt(b, r, m, why) {
        SteadyPasses(b, r, m);
        assert why == Exhausted;
        ExhaustedIsFar(b, s, r, r.count, CounterOf(b, s, CounterKey(r.series, r.period)), m);
      }
    }
  }

  // ---------------------------------------------------------------------------
  // The concrete case
  // ---------------------------------------------------------------------------

  function SampleLayout(prefix: string): Layout {
    Layout([Prefix, Ordinal], prefix, "", "", 1)
  }

  function SampleSeries(prefix: string): Series {
    Series(1, [], SampleLayout(prefix), 3, 10, true, 20, None, 1, true)
  }

  /** The only number issued is 113, as prefix 11 and ordinal 3; then the prefix was changed to 1. */
  function SampleBook(): Book {
    var e := Entry(1, "2026", 3, "113", Scope(0, ""), false, Reserved, 7, None, None);
    Book(map[1 := SampleSeries("1")], map[CounterKey(1, "2026") := 13], [e],
         map[NumberClaim(1, Scope(0, ""), "113") := Claim(None, Some(0))],
         map[ReceiptKey(1, 7, "first") := Receipt("reserve", [0])], map[])
  }

  function SampleRequest(): ReserveRequest {
    ReserveRequest(1, 7, "again", "reserve", 1, None, "2026", 0, Some(Scope(2026, "order")), None, true, true, true)
  }

  lemma {:induction false} SampleNumbers()
    ensures NumberOf(SampleLayout("11"), "2026", 3) == "113"
    ensures NumberOf(SampleLayout("1"), "2026", 13) == "113"
    ensures Render(SampleLayout("11"), "2026", 3).Some?
    ensures Render(SampleLayout("1"), "2026", 13).Some?
  {
  }

  function SampleRun(): seq<Op> {
    [OpCreate(1, SampleSeries("11"), true),
     OpReserve(ReserveRequest(1, 7, "first", "reserve", 1, None, "2026", 0, None, None, true, true, true)),
     OpPatch(1, SampleSeries("1"), true)]
  }

  /** The register is one that is reached: a series is created, a number reserved, the prefix changed. */
  lemma {:induction false} SampleIsReached()
    ensures Inv(EMPTY) && (forall i :: 0 <= i < |SampleRun()| ==> OpOk(SampleRun()[i]))
    ensures Run(EMPTY, SampleRun()) == SampleBook()
  {
    hide NumberOf, OrdinalClaim, Inv, Render, NumberKey;
    EmptyInv();
    SampleNumbers();
    SampleSeriesOk("11");
    SampleSeriesOk("1");
    var ops := SampleRun();
    var s, r := SampleSeries("11"), ops[1].reserve;
    var x := After(EMPTY, ops[0]);
    assert x == EMPTY.(series := map[1 := s]);
    assert NextFree(x.claims, s, "2026", Scope(0, ""), 3) == Ok(3) by {
      NothingOccupied(s, "2026", Scope(0, ""), 3);
    }
    var e := Entry(1, "2026", 3, "113", Scope(0, ""), false, Reserved, 7, None, None);
    assert EntryFor(s, r, None, 3) == e;
    var claim := OrdinalClaim(s, "2026", Scope(0, ""), 3);
    assert claim == NumberClaim(1, Scope(0, ""), "113") by {
      SampleClaim(s);
    }
    assert Allocate(x, s, r, None, 1, 3) == Ok((Insert(x, e, claim), 13));
    var y := After(x, ops[1]);
    assert Range(0, 1) == [0];
    assert y == SampleBook().(series := map[1 := s]);
    var z := After(y, ops[2]);
    assert z == SampleBook();
    assert ops[1..][0] == ops[1] && ops[1..][1..][0] == ops[2] && ops[1..][1..][1..] == [];
    assert Run(z, []) == z;
    assert Run(y, ops[1..][1..]) == z;
    assert Run(x, ops[1..]) == z;
  }

  lemma {:induction false} SampleSeriesOk(prefix: string)
    ensures SeriesOk(SampleSeries(prefix))
  {
    assert OrdinalCount([Prefix, Ordinal]) == 1 + OrdinalCount([Prefix, Ordinal][1..][1..]);
  }

  lemma {:induction false} NothingOccupied(s: Series, period: string, scope: Scope, o: nat)
    ensures !Occupied(map[], s, period, scope, o)
  {
  }

  lemma {:induction false} SampleClaim(s: Series)
    requires s == SampleSeries("11")
    ensures OrdinalClaim(s, "2026", Scope(0, ""), 3) == NumberClaim(1, Scope(0, ""), "113")
  {
    hide NumberOf, NumberKey;
    SampleNumbers();
  }

  /**
   The skip loop does not protect against a change of prefix: in a register that is reached, with the
   number free in the asked scope, the reservation is refused, and being rolled back it is refused the
   same way every time.
   */
  lemma {:induction false} TakenAfterPrefixChange()
    ensures Inv(EMPTY) && (forall i :: 0 <= i < |SampleRun()| ==> OpOk(SampleRun()[i]))
    ensures Run(EMPTY, SampleRun()) == SampleBook() && Inv(SampleBook())
    ensures Reserve(SampleBook(), SampleRequest()) == Err(NumberTaken)
    ensures NumberClaim(1, Scope(2026, "order"), "113") !in SampleBook().claims
  {
    hide NumberKey, NumberOf, Inv, Run, Render, OpOk;
    SampleIsReached();
    var b, r := SampleBook(), SampleRequest();
    var s := b.series[1];
    SampleNumbers();
    SampleSeriesOk("1");
    assert NextFree(b.claims, s, "2026", ScopeFor(s, r), 13) == Ok(13);
    assert NumberUsed(b.entries, 1, "2026", "113") by {
      assert b.entries[0].number == "113";
    }
    assert Allocate(b, s, r, HoursFor(s, r), 1, 13) == Err(NumberTaken);
  }

  // ---------------------------------------------------------------------------
  // One step
  // ---------------------------------------------------------------------------

  /** The moves an entry may make in one operation. */
  predicate LegalMove(a: EntryState, z: EntryState) {
    a == z || (a.Reserved? && (z.Assigned? || z.Cancelled? || z.Expired?)) || (a.Assigned? && z.Void?)
  }

  lemma {:induction false} ReserveKeepsEntries(b: Book, r: ReserveRequest)
    requires Inv(b) && Reserve(b, r).Ok?
    ensures |b.entries| <= |Reserve(b, r).value.book.entries|
    ensures Reserve(b, r).value.book.entries[..|b.entries|] == b.entries
  {
    hide Allocate, FreeOnes, EntriesFor, Between;
    if ReceiptKey(r.series, r.actor, r.key) !in b.receipts {
      var s := b.series[r.series];
      assert SeriesOk(s);
      var m := BatchTakesTheFree(b, s, r, HoursFor(s, r), r.count, CounterOf(b, s, CounterKey(r.series, r.period)));
    }
  }

  lemma {:induction false} AttachMoves(b: Book, r: SyncRequest, series: nat, id: nat, i: nat)
    requires r.document in b.documents && id < |b.entries| && b.entries[id].series in b.series && i < |b.entries|
    requires Attach(b, r, series, id).Ok?
    ensures var z := Attach(b, r, series, id).value;
            && i < |z.entries| && LegalMove(b.entries[i].state, z.entries[i].state)
            && (z.entries[i].state != b.entries[i].state ==> b.entries[i].state.Reserved?)
  {
  }

  lemma {:induction false} SyncMoves(b: Book, r: SyncRequest, i: nat)
    requires Inv(b) && (forall j :: 0 <= j < |b.entries| ==> b.entries[j].series in b.series) && i < |b.entries|
    requires Sync(b, r).Ok?
    ensures var z := Sync(b, r).value; i < |z.entries| && LegalMove(b.entries[i].state, z.entries[i].state)
  {
    hide Attach, Reserve, FieldRefusal, SyncEntry, CarriedBy;
    var carried := CarriedBy(b.entries, r.document, b.documents[r.document]);
    var existing := if r.chosen.Some? then r.chosen else carried;
    var kept := Dropped(b, r.document);
    SupersedeKeeps(b, r.document, carried);
    EntrySeries(kept);
    assert b.entries[i].state == kept.entries[i].state || kept.entries[i].state.Cancelled?;
    SyncEntryMoves(kept, r, existing, i);
  }

  lemma {:induction false} SyncEntryMoves(b: Book, r: SyncRequest, existing: Option<nat>, i: nat)
    requires Inv(b) && (forall j :: 0 <= j < |b.entries| ==> b.entries[j].series in b.series) && i < |b.entries|
    requires r.document in b.documents && (existing.Some? ==> existing.value < |b.entries|)
    requires SyncEntry(b, r, existing).Ok?
    ensures var z := SyncEntry(b, r, existing).value;
            && i < |z.entries| && LegalMove(b.entries[i].state, z.entries[i].state)
            && (z.entries[i].state != b.entries[i].state ==> b.entries[i].state.Reserved?)
  {
    hide Attach, Reserve, FieldRefusal;
    var z := SyncEntry(b, r, existing).value;
    if z != b {
      if existing.Some? {
        AttachMoves(b, r, b.entries[existing.value].series, existing.value, i);
      } else {
        var req := CardReserve(r, r.boundSeries.value, b.documents[r.document]);
        ReserveKeepsEntries(b, req);
        var after := Reserve(b, req).value;
        assert after.book.entries[i] == after.book.entries[..|b.entries|][i];
        AttachMoves(after.book, r, r.boundSeries.value, after.ids[0], i);
      }
    }
  }

  lemma {:induction false} AssignMoves(b: Book, r: AssignRequest, i: nat)
    requires (forall j :: 0 <= j < |b.entries| ==> b.entries[j].series in b.series) && i < |b.entries|
    requires Assign(b, r).Ok?
    ensures var z := Assign(b, r).value.book;
            i < |z.entries| && LegalMove(b.entries[i].state, z.entries[i].state)
  {
    hide LinkRefusal, NumberClaim;
  }

  /** In one operation an entry stays, leaves `reserved` for good, or goes from assigned to void. */
  lemma {:induction false} MovesAreLegal(b: Book, op: Op, i: nat)
    requires Inv(b) && OpOk(op) && i < |b.entries|
    ensures i < |After(b, op).entries| && LegalMove(b.entries[i].state, After(b, op).entries[i].state)
  {
    hide Reserve, Assign, Sync, Inv;
    EntrySeries(b);
    if Apply(b, op).Ok? {
      if op.OpAssign? {
        AssignMoves(b, op.assign, i);
      } else if op.OpReserve? {
        ReserveKeepsEntries(b, op.reserve);
        var z := After(b, op);
        assert z.entries[i] == z.entries[..|b.entries|][i];
      } else if op.OpSync? {
        SyncMoves(b, op.sync, i);
      }
    }
  }
}
