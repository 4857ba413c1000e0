/**
 What a reservation writes: the text of every number it hands out, the key the register compares it
 by, and the other fields of the entries it adds.
 */
module NumberOutcomes {
  import opened Prelude
  import opened NumberFormat
  import opened Numbering
  import opened NumberingRuns
  import opened NumberingTheorems
  import opened NumberBatches

  // ---------------------------------------------------------------------------
  // The text of a number
  // ---------------------------------------------------------------------------

  /** The digits of `n`, with zeros in front only as far as the width asks for them. */
  ghost predicate ZeroFilled(s: string, n: nat, width: nat) {
    && AllDigits(s) && Value(s) == n && |s| >= 1 && |s| >= width
    && (|s| > 1 && |s| > width ==> s[0] != '0')
  }

  /** What one segment of a format puts into the number. */
  ghost predicate Says(layout: Layout, segment: Segment, period: string, ordinal: nat, s: string) {
    match segment
    case Text(text) => s == text
    case Ordinal => ZeroFilled(s, ordinal, layout.padding)
    case Period => s == period
    case Prefix => s == layout.prefix
    case Suffix => s == layout.suffix
    case Code => s == layout.code
  }

  ghost predicate SaysAt(layout: Layout, format: seq<Segment>, period: string, ordinal: nat, text: string,
                         cuts: seq<nat>, k: nat)
    requires k < |format| && |cuts| == |format| + 1
  {
    cuts[k] <= cuts[k + 1] <= |text| && Says(layout, format[k], period, ordinal, text[cuts[k]..cuts[k + 1]])
  }

  /** The cuts divide the text into one stretch per segment, in order. */
  ghost predicate Divides(layout: Layout, format: seq<Segment>, period: string, ordinal: nat, text: string,
                          cuts: seq<nat>)
  {
    && |cuts| == |format| + 1 && cuts[0] == 0 && cuts[|format|] == |text|
    && forall k :: 0 <= k < |format| ==> SaysAt(layout, format, period, ordinal, text, cuts, k)
  }

  /** The text is the format with its placeholders filled in for an ordinal. */
  ghost predicate Written(layout: Layout, period: string, ordinal: nat, text: string) {
    exists cuts :: Divides(layout, layout.format, period, ordinal, text, cuts)
  }

  lemma {:induction false} DecimalStart(n: nat)
    ensures |Decimal(n)| >= 1 && (n >= 10 ==> |Decimal(n)| > 1) && (|Decimal(n)| > 1 ==> Decimal(n)[0] != '0')
    ensures n > 0 ==> Decimal(n)[0] != '0'
  {
    if n >= 10 {
      DecimalStart(n / 10);
    }
  }

  lemma {:induction false} PaddedIsZeroFilled(n: nat, width: nat)
    ensures ZeroFilled(Padded(n, width), n, width)
  {
    PaddedValue(n, width);
    DecimalStart(n);
    if |Decimal(n)| < width {
      ZerosDigits(width - |Decimal(n)|);
    }
  }

  lemma {:induction false} ExpandDivides(layout: Layout, format: seq<Segment>, period: string, ordinal: nat)
      returns (cuts: seq<nat>)
    ensures Divides(layout, format, period, ordinal,
                    Expand(layout, format, period, Padded(ordinal, layout.padding)), cuts)
    decreases |format|
  {
    hide Padded, ZeroFilled;
    var z := Padded(ordinal, layout.padding);
    var text := Expand(layout, format, period, z);
    if format == [] {
      cuts := [0];
    } else {
      var behind := Expand(layout, format[1..], period, z);
      var rest := ExpandDivides(layout, format[1..], period, ordinal);
      var n: nat := |text| - |behind|;
      assert Says(layout, format[0], period, ordinal, text[..n]) && text[n..] == behind by {
        PaddedIsZeroFilled(ordinal, layout.padding);
      }
      cuts := [0] + seq(|rest|, i requires 0 <= i < |rest| => n + rest[i]);
      forall k | 0 <= k < |format|
        ensures SaysAt(layout, format, period, ordinal, text, cuts, k)
      {
        if k == 0 {
          assert cuts[1] == n;
        } else {
          var j := k - 1;
          assert SaysAt(layout, format[1..], period, ordinal, behind, rest, j);
          assert text[cuts[k]..cuts[k + 1]] == behind[rest[j]..rest[j + 1]];
        }
      }
    }
  }

  ghost function Power10(n: nat): nat {
    if n == 0 then 1 else 10 * Power10(n - 1)
  }

  lemma {:induction false} PowersGrow(m: nat, n: nat)
    requires m <= n
    ensures Power10(m) <= Power10(n)
  {
    if m < n {
      PowersGrow(m, n - 1);
    }
  }

  lemma {:induction false} ValueBounds(s: string)
    requires AllDigits(s)
    ensures Value(s) < Power10(|s|)
    ensures s != "" && s[0] != '0' ==> Value(s) >= Power10(|s| - 1)
    decreases |s|
  {
    if s != "" {
      ValueBounds(s[..|s| - 1]);
    }
  }

  lemma {:induction false} SameLengthSameDigits(s: string, t: string)
    requires AllDigits(s) && AllDigits(t) && |s| == |t| && Value(s) == Value(t)
    ensures s == t
    decreases |s|
  {
    if s != "" {
      var n := |s| - 1;
      SameLengthSameDigits(s[..n], t[..n]);
      assert s == s[..n] + [s[n]] && t == t[..n] + [t[n]];
    }
  }

  lemma {:induction false} NotLonger(s: string, t: string, n: nat, width: nat)
    requires ZeroFilled(s, n, width) && ZeroFilled(t, n, width)
    ensures |t| <= |s|
  {
    ValueBounds(s);
    ValueBounds(t);
    if |s| < |t| {
      PowersGrow(|s|, |t| - 1);
    }
  }

  /** There is only one way to write an ordinal with a width. */
  lemma {:induction false} ZeroFilledOnce(s: string, t: string, n: nat, width: nat)
    requires ZeroFilled(s, n, width) && ZeroFilled(t, n, width)
    ensures s == t
  {
    NotLonger(s, t, n, width);
    NotLonger(t, s, n, width);
    SameLengthSameDigits(s, t);
  }

  lemma {:induction false} CutsAgree(layout: Layout, format: seq<Segment>, period: string, ordinal: nat,
                                     s: string, t: string, a: seq<nat>, b: seq<nat>, k: nat)
    requires Divides(layout, format, period, ordinal, s, a) && Divides(layout, format, period, ordinal, t, b)
    requires k <= |format|
    ensures a[k] == b[k] <= |s| && b[k] <= |t| && s[..a[k]] == t[..b[k]]
    decreases k
  {
    hide ZeroFilled;
    if k > 0 {
      var j := k - 1;
      CutsAgree(layout, format, period, ordinal, s, t, a, b, j);
      assert SaysAt(layout, format, period, ordinal, s, a, j) && SaysAt(layout, format, period, ordinal, t, b, j);
      var x, y := s[a[j]..a[k]], t[b[j]..b[k]];
      assert x == y by {
        if format[j].Ordinal? {
          ZeroFilledOnce(x, y, ordinal, layout.padding);
        }
      }
      assert s[..a[k]] == s[..a[j]] + x && t[..b[k]] == t[..b[j]] + y;
    }
  }

  /** A format, a period and an ordinal determine the text. */
  lemma {:induction false} WrittenOnce(layout: Layout, period: string, ordinal: nat, s: string, t: string)
    requires Written(layout, period, ordinal, s) && Written(layout, period, ordinal, t)
    ensures s == t
  {
    var a :| Divides(layout, layout.format, period, ordinal, s, a);
    var b :| Divides(layout, layout.format, period, ordinal, t, b);
    CutsAgree(layout, layout.format, period, ordinal, s, t, a, b, |layout.format|);
  }

  /** Rendering gives the text of the ordinal, and refuses exactly when it has more than 255 characters. */
  lemma {:induction false} RenderMeaning(layout: Layout, period: string, ordinal: nat, text: string)
    requires Written(layout, period, ordinal, text)
    ensures Render(layout, period, ordinal) == if |text| <= 255 then Some(text) else None
  {
    hide Padded, Divides;
    var cuts := ExpandDivides(layout, layout.format, period, ordinal);
    WrittenOnce(layout, period, ordinal, text,
                Expand(layout, layout.format, period, Padded(ordinal, layout.padding)));
  }

  /** What is left of a text without the blanks around it. */
  ghost predicate Trimmed(text: string, from: nat, to: nat) {
    && from <= to <= |text| && Blank(text[..from]) && Blank(text[to..])
    && (from < to ==> !IsSpace(text[from]) && !IsSpace(text[to - 1]))
  }

  ghost predicate IsTrimmed(text: string, s: string) {
    exists from: nat, to: nat :: Trimmed(text, from, to) && s == text[from..to]
  }

  lemma {:induction false} StripLeftTrims(s: string) returns (n: nat)
    ensures n <= |s| && StripLeft(s) == s[n..] && Blank(s[..n])
    ensures n < |s| ==> !IsSpace(s[n])
    decreases |s|
  {
    hide IsSpace;
    if s != "" && IsSpace(s[0]) {
      n := StripLeftTrims(s[1..]);
      assert s[1..][n..] == s[n + 1..];
      assert forall i :: 0 < i < n + 1 ==> s[i] == s[1..][..n][i - 1];
      n := n + 1;
    } else {
      n := 0;
    }
  }

  lemma {:induction false} StripRightTrims(s: string) returns (n: nat)
    ensures n <= |s| && StripRight(s) == s[..n] && Blank(s[n..])
    ensures n > 0 ==> !IsSpace(s[n - 1])
    decreases |s|
  {
    hide IsSpace;
    var last := |s| - 1;
    if s != "" && IsSpace(s[last]) {
      n := StripRightTrims(s[..last]);
      assert s[..last][..n] == s[..n];
      assert forall i :: n <= i < last ==> s[i] == s[..last][n..][i - n];
    } else {
      n := |s|;
    }
  }

  lemma {:induction false} StripTrims(text: string)
    ensures IsTrimmed(text, Strip(text))
  {
    hide IsSpace, StripLeft, StripRight, Blank;
    var from := StripLeftTrims(text);
    var n := StripRightTrims(text[from..]);
    var to := from + n;
    assert text[from..][..n] == text[from..to];
    assert text[from..][n..] == text[to..];
    if n == 0 && from < |text| {
      assert text[from..][0..][0] == text[from];
      assert Blank(text[from..][0..]);
      NotBlank(text[from..]);
    }
    assert Trimmed(text, from, to);
  }

  lemma {:induction false} NotBlank(s: string)
    requires s != "" && !IsSpace(s[0])
    ensures !Blank(s)
  {
  }

  /** The number of an ordinal is the text of the ordinal without the blanks around it. */
  ghost predicate IsNumber(layout: Layout, period: string, ordinal: nat, number: string) {
    exists text :: Written(layout, period, ordinal, text) && |text| <= 255 && IsTrimmed(text, number)
  }

  lemma {:induction false} NumberMeaning(layout: Layout, period: string, ordinal: nat)
    requires Render(layout, period, ordinal).Some?
    ensures IsNumber(layout, period, ordinal, NumberOf(layout, period, ordinal))
  {
    hide Padded, Divides, Strip, IsTrimmed;
    var cuts := ExpandDivides(layout, layout.format, period, ordinal);
    var text := Expand(layout, layout.format, period, Padded(ordinal, layout.padding));
    StripTrims(text);
    assert Written(layout, period, ordinal, text);
  }

  // ---------------------------------------------------------------------------
  // When two numbers are the same number
  // ---------------------------------------------------------------------------

  /** `small` is the lower case of a capital: at the same place of the Latin or the Cyrillic alphabet. */
  ghost predicate SmallOf(capital: char, small: char) {
    || ('A' <= capital <= 'Z' && 'a' <= small <= 'z' && capital - 'A' == small - 'a')
    || ('\U{410}' <= capital <= '\U{42f}' && '\U{430}' <= small <= '\U{44f}'
        && capital - '\U{410}' == small - '\U{430}')
    || ('\U{400}' <= capital <= '\U{40f}' && '\U{450}' <= small <= '\U{45f}'
        && capital - '\U{400}' == small - '\U{450}')
  }

  ghost predicate SameLetter(c: char, d: char) {
    c == d || SmallOf(c, d) || SmallOf(d, c)
  }

  ghost predicate SameLetters(s: string, t: string) {
    |s| == |t| && forall i :: 0 <= i < |s| ==> SameLetter(s[i], t[i])
  }

  lemma {:induction false} SameLetterExactly(c: char, d: char)
    ensures SameLetter(c, d) <==> Lower(c) == Lower(d)
  {
  }

  lemma {:induction false} LowerAllExactly(s: string, t: string)
    ensures SameLetters(s, t) <==> LowerAll(s) == LowerAll(t)
  {
    hide Lower, SameLetter;
    forall c, d
      ensures SameLetter(c, d) <==> Lower(c) == Lower(d)
    {
      SameLetterExactly(c, d);
    }
    assert |LowerAll(s)| == |s| && |LowerAll(t)| == |t|;
    assert forall i :: 0 <= i < |s| ==> LowerAll(s)[i] == Lower(s[i]);
    assert forall i :: 0 <= i < |t| ==> LowerAll(t)[i] == Lower(t[i]);
    if SameLetters(s, t) {
      assert LowerAll(s) == LowerAll(t);
    } else if |s| == |t| {
      var i :| 0 <= i < |s| && !SameLetter(s[i], t[i]);
      assert LowerAll(s)[i] != LowerAll(t)[i];
    }
  }

  lemma {:induction false} NotBefore(text: string, a: nat, b: nat, c: nat, d: nat)
    requires Trimmed(text, a, b) && Trimmed(text, c, d) && a < b
    ensures c <= a && b <= d
  {
    hide IsSpace;
    assert forall i :: 0 <= i < c ==> text[..c][i] == text[i] && IsSpace(text[i]);
    assert forall i :: d <= i < |text| ==> text[d..][i - d] == text[i] && IsSpace(text[i]);
  }

  lemma {:induction false} TrimmedOnce(text: string, s: string, t: string)
    requires IsTrimmed(text, s) && IsTrimmed(text, t)
    ensures s == t
  {
    hide IsSpace;
    var a: nat, b: nat :| Trimmed(text, a, b) && s == text[a..b];
    var c: nat, d: nat :| Trimmed(text, c, d) && t == text[c..d];
    if a < b {
      NotBefore(text, a, b, c, d);
    }
    if c < d {
      NotBefore(text, c, d, a, b);
    }
  }

  /** The register takes two numbers for one exactly when they differ only in blanks around them and in case. */
  lemma {:induction false} SameKeyExactly(x: string, y: string, s: string, t: string)
    requires IsTrimmed(x, s) && IsTrimmed(y, t)
    ensures NumberKey(x) == NumberKey(y) <==> SameLetters(s, t)
    ensures NumberKey(x) == None <==> s == ""
  {
    hide Strip, IsTrimmed, LowerAll, SameLetters;
    StripTrims(x);
    StripTrims(y);
    TrimmedOnce(x, s, Strip(x));
    TrimmedOnce(y, t, Strip(y));
    LowerAllExactly(s, t);
    LowerAllLength(s);
    LowerAllLength(t);
  }

  /** Only a blank text has no key. */
  lemma {:induction false} BlankHasNoKey(x: string)
    ensures NumberKey(x).None? <==> Blank(x)
  {
    hide IsSpace, Strip;
    StripTrims(x);
    LowerAllLength(Strip(x));
    var from: nat, to: nat :| Trimmed(x, from, to) && Strip(x) == x[from..to];
    assert forall i :: 0 <= i < from ==> x[..from][i] == x[i];
    assert forall i :: to <= i < |x| ==> x[to..][i - to] == x[i];
  }

  lemma {:induction false} LowerAllLength(s: string)
    ensures |LowerAll(s)| == |s|
  {
  }

  // ---------------------------------------------------------------------------
  // What a reservation adds
  // ---------------------------------------------------------------------------

  /** A term in hours ends that many hours from now; without one the reservation does not expire. */
  ghost predicate ExpiresAfter(expires: Option<int>, now: int, hours: Option<nat>) {
    match hours
    case None => expires == None
    case Some(h) => expires == Some(now + h * 60 * 60)
  }

  /** The term asked for, or that of the series if none was given. */
  ghost predicate Term(s: Series, r: ReserveRequest, hours: Option<nat>) {
    match r.hours
    case None => hours == s.defaultHours
    case Some(asked) => hours == asked
  }

  ghost predicate TermAllowed(s: Series, hours: Option<nat>) {
    match hours
    case None => s.allowIndefinite
    case Some(h) => h <= s.maxHours
  }

  /** The scope asked for; otherwise undated, and of the type of the series if it has only one. */
  ghost predicate ScopeAsked(s: Series, r: ReserveRequest, scope: Scope) {
    match r.scope
    case Some(asked) => scope == asked
    case None => scope.year == 0 && (if |s.kinds| == 1 then [scope.kind] == s.kinds else scope.kind == "")
  }

  /** A fresh reservation of the request, numbered as the series writes its ordinal in the period. */
  ghost predicate Reservation(s: Series, r: ReserveRequest, hours: Option<nat>, e: Entry) {
    && e.series == r.series && e.period == r.period && e.owner == r.actor
    && e.state.Reserved? && e.document == None
    && IsNumber(s.layout, r.period, e.ordinal, e.number)
    && ScopeAsked(s, r, e.scope)
    && (match r.scopeBound case Some(bound) => e.bound == bound case None => (e.bound <==> r.scope.Some?))
    && Term(s, r, hours) && ExpiresAfter(e.expires, r.now, hours)
  }

  lemma {:induction false} EntryIsReservation(s: Series, r: ReserveRequest, ordinal: nat)
    requires Render(s.layout, r.period, ordinal).Some?
    ensures Reservation(s, r, HoursFor(s, r), EntryFor(s, r, HoursFor(s, r), ordinal))
  {
    hide Render, NumberOf, IsNumber;
    NumberMeaning(s.layout, r.period, ordinal);
  }

  /** A reservation that is not a repetition passes the checks exactly when all of this holds. */
  ghost predicate MayReserve(b: Book, r: ReserveRequest) {
    && r.series in b.series && b.series[r.series].active && r.permitted && r.scopeValid
    && ReceiptKey(r.series, r.actor, r.key) !in b.receipts
    && r.count <= b.series[r.series].maxBatch
    && exists hours :: Term(b.series[r.series], r, hours) && TermAllowed(b.series[r.series], hours)
  }

  lemma {:induction false} AdmittedExactly(b: Book, r: ReserveRequest)
    ensures Admitted(b, r) <==> MayReserve(b, r)
  {
    if r.series in b.series {
      var s := b.series[r.series];
      assert Term(s, r, HoursFor(s, r));
    }
  }

  /** The batch loop writes every entry it adds for an ordinal that can be rendered. */
  lemma {:induction false} AllocatedEntry(b: Book, s: Series, r: ReserveRequest, hours: Option<nat>, n: nat,
                                          ordinal: nat, i: nat)
    requires SeriesOk(s) && Allocate(b, s, r, hours, n, ordinal).Ok?
    requires |b.entries| <= i < |Allocate(b, s, r, hours, n, ordinal).value.0.entries|
    ensures var e := Allocate(b, s, r, hours, n, ordinal).value.0.entries[i];
            Render(s.layout, r.period, e.ordinal).Some? && e == EntryFor(s, r, hours, e.ordinal)
    decreases n
  {
    hide Render, NumberOf, NumberUsed, OrdinalClaim, NextFree, LayoutOk, HandedOut, FreePlace, IsAmong, ScopeFor;
    if n > 0 {
      var k := NextFreeMeaning(b.claims, s, r.period, ScopeFor(s, r), ordinal);
      var o := NextFree(b.claims, s, r.period, ScopeFor(s, r), ordinal).value;
      var y := Insert(b, EntryFor(s, r, hours, o), OrdinalClaim(s, r.period, ScopeFor(s, r), o));
      if i > |b.entries| {
        AllocatedEntry(y, s, r, hours, n - 1, o + s.step, i);
      } else {
        var m := BatchOrdinals(y, s, r, hours, n - 1, o + s.step);
        var z := Allocate(y, s, r, hours, n - 1, o + s.step).value.0;
        assert z.entries[i] == z.entries[..|y.entries|][i];
      }
    }
  }

  /** Where the series stands in a period: behind its last number there, or at its start. */
  ghost predicate StandsAt(b: Book, s: Series, c: CounterKey, ordinal: nat) {
    if c in b.counters then ordinal == b.counters[c] else ordinal == s.start
  }

  /** The entries added are reservations of the request, in the order of their ordinals. */
  ghost predicate AddsReservations(b: Book, z: Book, r: ReserveRequest, hours: Option<nat>)
    requires r.series in b.series
  {
    && |z.entries| == |b.entries| + r.count && z.entries[..|b.entries|] == b.entries
    && (forall i :: |b.entries| <= i < |z.entries| ==> Reservation(b.series[r.series], r, hours, z.entries[i]))
    && (forall i, j :: |b.entries| <= i < j < |z.entries| ==> z.entries[i].ordinal < z.entries[j].ordinal)
  }

  /**
   The counter moves from where the series stands to one step behind the last ordinal handed out, and
   apart from claims and the receipt nothing else changes.
   */
  ghost predicate MovesCounter(b: Book, z: Book, r: ReserveRequest, ids: seq<nat>, first: nat, next: nat)
    requires r.series in b.series
  {
    && StandsAt(b, b.series[r.series], CounterKey(r.series, r.period), first)
    && z.counters == b.counters[CounterKey(r.series, r.period) := next]
    && (if r.count == 0 then next == first
        else |z.entries| > |b.entries| && z.entries[|b.entries|].ordinal >= first
             && next == z.entries[|z.entries| - 1].ordinal + b.series[r.series].step)
    && z.series == b.series && z.documents == b.documents
    && z.receipts == b.receipts[ReceiptKey(r.series, r.actor, r.key) := Receipt(r.payload, ids)]
  }

  lemma {:induction false} AllocateRest(b: Book, s: Series, r: ReserveRequest, hours: Option<nat>, n: nat, ordinal: nat)
    requires s.step >= 1 && Allocate(b, s, r, hours, n, ordinal).Ok?
    ensures var z := Allocate(b, s, r, hours, n, ordinal).value.0;
            && z.series == b.series && z.documents == b.documents && z.receipts == b.receipts
            && z.counters == b.counters
    decreases n
  {
    hide NextFree, EntryFor, OrdinalClaim, NumberUsed, ScopeFor;
    if n > 0 {
      var o := NextFree(b.claims, s, r.period, ScopeFor(s, r), ordinal).value;
      var y := Insert(b, EntryFor(s, r, hours, o), OrdinalClaim(s, r.period, ScopeFor(s, r), o));
      AllocateRest(y, s, r, hours, n - 1, o + s.step);
    }
  }

  lemma {:induction false} CounterBehindLast(b: Book, s: Series, r: ReserveRequest, hours: Option<nat>, n: nat,
                                             first: nat)
    requires SeriesOk(s) && Allocate(b, s, r, hours, n, first).Ok?
    ensures var (z, next) := Allocate(b, s, r, hours, n, first).value;
            if n == 0 then z.entries == b.entries && next == first
            else |z.entries| > |b.entries| && z.entries[|b.entries|].ordinal >= first
                 && next == z.entries[|z.entries| - 1].ordinal + s.step
  {
    hide Allocate, NumberOf, Occupied, LayoutOk;
    var m := BatchTakesTheFree(b, s, r, hours, n, first);
    var free := FreeOnes(b.claims, s, r.period, ScopeFor(s, r), first, m);
    assert n == 0 ==> EntriesFor(s, r, hours, free) == [];
  }

  /**
   An accepted reservation adds exactly as many reservations as asked for, each written as the series
   writes its ordinal and each with the asked scope, owner and term, and answers with them in order.
   */
  lemma {:induction false} ReservationIssues(b: Book, r: ReserveRequest)
      returns (hours: Option<nat>, first: nat, next: nat)
    requires SeriesAllOk(b) && MayReserve(b, r) && Reserve(b, r).Ok?
    ensures var z := Reserve(b, r).value;
            && AddsReservations(b, z.book, r, hours)
            && TermAllowed(b.series[r.series], hours)
            && MovesCounter(b, z.book, r, z.ids, first, next)
            && |z.ids| == r.count && forall k :: 0 <= k < r.count ==> z.ids[k] == |b.entries| + k
  {
    hide Allocate, EntryFor, Reservation, LayoutOk, FreePlace, IsAmong, HandedOut;
    AdmittedExactly(b, r);
    var s := b.series[r.series];
    assert SeriesOk(s);
    hours := HoursFor(s, r);
    first := CounterOf(b, s, CounterKey(r.series, r.period));
    var a := Allocate(b, s, r, hours, r.count, first).value.0;
    next := Allocate(b, s, r, hours, r.count, first).value.1;
    var m := BatchOrdinals(b, s, r, hours, r.count, first);
    CounterBehindLast(b, s, r, hours, r.count, first);
    AllocateRest(b, s, r, hours, r.count, first);
    forall i | |b.entries| <= i < |a.entries|
      ensures Reservation(s, r, hours, a.entries[i])
    {
      AllocatedEntry(b, s, r, hours, r.count, first, i);
      EntryIsReservation(s, r, a.entries[i].ordinal);
    }
  }

  /** The claims of the register hold the number, in the registry and scope. */
  ghost predicate Claimed(claims: map<ClaimKey, Claim>, registry: nat, scope: Scope, number: string) {
    exists c :: c in claims && c.registry == registry && c.scope == scope && Some(c.key) == NumberKey(number)
  }

  /** An ordinal is skipped exactly when its number is claimed in the asked scope. */
  lemma {:induction false} OccupiedExactly(claims: map<ClaimKey, Claim>, s: Series, period: string, scope: Scope,
                                           ordinal: nat, text: string, number: string)
    requires SeriesOk(s) && Written(s.layout, period, ordinal, text) && IsTrimmed(text, number)
    ensures Occupied(claims, s, period, scope, ordinal) <==> Claimed(claims, s.registry, scope, number)
  {
    hide Divides, Strip, IsTrimmed, NumberKey, Padded, LayoutOk;
    var cuts := ExpandDivides(s.layout, s.layout.format, period, ordinal);
    var written := Expand(s.layout, s.layout.format, period, Padded(ordinal, s.layout.padding));
    WrittenOnce(s.layout, period, ordinal, text, written);
    StripTrims(text);
    TrimmedOnce(text, number, Strip(text));
    KeyInjective(s.layout, period, ordinal, ordinal);
    var claim := OrdinalClaim(s, period, scope, ordinal);
    assert Some(claim.key) == NumberKey(number);
  }

  ghost predicate NumberOfPeriod(b: Book, r: ReserveRequest, number: string) {
    exists i :: 0 <= i < |b.entries| && b.entries[i].series == r.series && b.entries[i].period == r.period
                && b.entries[i].number == number
  }

  /**
   What stands in the way of an ordinal: it is beyond 10^15, its text is longer than 255 characters, or its
   number is free in the asked scope and yet an entry of the period has it.
   */
  lemma {:induction false} ObstacleMeaning(b: Book, s: Series, r: ReserveRequest, next: nat, m: nat, scope: Scope,
                                           text: string, number: string)
    requires SeriesOk(s) && ScopeAsked(s, r, scope)
    requires Written(s.layout, r.period, At(next, s.step, m), text) && IsTrimmed(text, number)
    ensures Obstacle(b, s, r, next, m) ==
            if At(next, s.step, m) > 1_000_000_000_000_000 then Some(Exhausted)
            else if |text| > 255 then Some(TooLong)
            else if !Claimed(b.claims, s.registry, scope, number) && NumberOfPeriod(b, r, number) then Some(NumberTaken)
            else None
  {
    hide Written, IsTrimmed, Occupied, Claimed, Strip, Render, Padded, LayoutOk;
    var o := At(next, s.step, m);
    RenderMeaning(s.layout, r.period, o, text);
    OccupiedExactly(b.claims, s, r.period, scope, o, text, number);
    NumberIs(s.layout, r.period, o, text, number);
    assert scope == ScopeFor(s, r) by { OneScope(s, r, scope); }
  }

  lemma {:induction false} OneScope(s: Series, r: ReserveRequest, scope: Scope)
    requires ScopeAsked(s, r, scope)
    ensures scope == ScopeFor(s, r)
  {
    assert |s.kinds| == 1 ==> s.kinds == [s.kinds[0]];
  }

  lemma {:induction false} NumberIs(layout: Layout, period: string, ordinal: nat, text: string, number: string)
    requires Written(layout, period, ordinal, text) && IsTrimmed(text, number)
    ensures NumberOf(layout, period, ordinal) == number
  {
    hide Divides, Strip, IsTrimmed, Padded;
    var cuts := ExpandDivides(layout, layout.format, period, ordinal);
    var written := Expand(layout, layout.format, period, Padded(ordinal, layout.padding));
    WrittenOnce(layout, period, ordinal, text, written);
    StripTrims(text);
    TrimmedOnce(text, number, Strip(text));
  }
}
