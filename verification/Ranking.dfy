/**
 The order in which the admin page offers open orders for an unmatched payment.

 Amounts are integers when their text parses as one, and moments are finite when their text parses
 as a date; `None` stands for a text that does not.
 */
module Ranking {
  import opened Prelude

  datatype Candidate = Candidate(
    expected: Option<int>,
    createdAt: Option<int>,
    score: real,
    rank: int,
    disqualified: bool)

  datatype Payment = Payment(amount: Option<int>, paidAt: Option<int>)

  function Distance(left: Option<int>, right: Option<int>): nat {
    if left.None? || right.None? then 0
    else if left.value < right.value then right.value - left.value
    else left.value - right.value
  }

  predicate IsExact(p: Payment, c: Candidate) {
    Distance(p.amount, c.expected) == 0
  }

  /** Within five percent of the expected amount. */
  predicate IsClose(p: Payment, c: Candidate) {
    c.expected.Some? && c.expected.value > 0 && Distance(p.amount, c.expected) * 10_000 <= c.expected.value * 500
  }

  datatype Order = Less | Equal | Greater

  function Ordered(less: bool): Order {
    if less then Less else Greater
  }

  /** The comparator; a difference that is not a number counts as a tie. */
  function Compare(p: Payment, left: Candidate, right: Candidate): Order {
    if IsExact(p, left) != IsExact(p, right) then Ordered(IsExact(p, left))
    else if IsClose(p, left) != IsClose(p, right) then Ordered(IsClose(p, left))
    else if IsClose(p, left) && p.paidAt.Some? && (left.createdAt.None? || right.createdAt.None?) then Equal
    else if IsClose(p, left) && p.paidAt.Some? && Age(p, left) != Age(p, right) then Ordered(Age(p, left) < Age(p, right))
    else if left.score != right.score then Ordered(left.score > right.score)
    else if Distance(p.amount, left.expected) != Distance(p.amount, right.expected)
    then Ordered(Distance(p.amount, left.expected) < Distance(p.amount, right.expected))
    else if left.rank == right.rank then Equal
    else Ordered(left.rank < right.rank)
  }

  function Age(p: Payment, c: Candidate): nat
    requires p.paidAt.Some? && c.createdAt.Some?
  {
    Distance(p.paidAt, c.createdAt)
  }

  predicate AtMost(p: Payment, left: Candidate, right: Candidate) {
    Compare(p, left, right) != Greater
  }

  //// When the comparator is an order

  /** A close candidate whose date the comparator wants and cannot read. */
  predicate IsUndated(p: Payment, c: Candidate) {
    p.paidAt.Some? && IsClose(p, c) && c.createdAt.None?
  }

  function Flip(o: Order): Order {
    match o
    case Less => Greater
    case Equal => Equal
    case Greater => Less
  }

  lemma {:induction false} CompareIsTotal(p: Payment, a: Candidate, b: Candidate)
    ensures Compare(p, b, a) == Flip(Compare(p, a, b))
    ensures AtMost(p, a, b) || AtMost(p, b, a)
    ensures Compare(p, a, a) == Equal
  {
  }

  /** Transitive, although ages are only compared between two close candidates. */
  lemma {:induction false} DatedIsTransitive(p: Payment, a: Candidate, b: Candidate, c: Candidate)
    requires !IsUndated(p, a) && !IsUndated(p, b) && !IsUndated(p, c)
    requires AtMost(p, a, b) && AtMost(p, b, c)
    ensures AtMost(p, a, c)
  {
  }

  ghost predicate IsTransitiveOn(p: Payment, cs: set<Candidate>) {
    forall a, b, c | a in cs && b in cs && c in cs && AtMost(p, a, b) && AtMost(p, b, c) :: AtMost(p, a, c)
  }

  predicate SameGroup(p: Payment, a: Candidate, b: Candidate) {
    IsClose(p, a) && IsClose(p, b) && IsExact(p, a) == IsExact(p, b)
  }

  /** Nothing that the comparator looks at tells two candidates of a group apart. */
  predicate AreAlike(p: Payment, a: Candidate, b: Candidate) {
    && Distance(p.paidAt, a.createdAt) == Distance(p.paidAt, b.createdAt)
    && a.score == b.score
    && Distance(p.amount, a.expected) == Distance(p.amount, b.expected)
    && a.rank == b.rank
  }

  /** Beside an undated candidate, the dated ones of its group are all alike. */
  ghost predicate UndatedGroupsTie(p: Payment, cs: set<Candidate>) {
    forall u, a, b | u in cs && IsUndated(p, u) && a in cs && b in cs && SameGroup(p, u, a) && SameGroup(p, u, b) ::
      IsUndated(p, a) || IsUndated(p, b) || AreAlike(p, a, b)
  }

  lemma {:induction false} TiesByFields(p: Payment, u: Candidate, a: Candidate, b: Candidate)
    requires IsUndated(p, u) && SameGroup(p, u, a) && SameGroup(p, u, b)
    ensures Compare(p, a, b) == Equal <==> IsUndated(p, a) || IsUndated(p, b) || AreAlike(p, a, b)
    ensures Compare(p, u, a) == Equal
  {
  }

  /** The comparator is transitive on a set of candidates exactly when undated close ones have nothing to order. */
  lemma {:induction false} TransitiveExactly(p: Payment, cs: set<Candidate>)
    ensures IsTransitiveOn(p, cs) <==> UndatedGroupsTie(p, cs)
  {
    if IsTransitiveOn(p, cs) {
      forall u, a, b | u in cs && IsUndated(p, u) && a in cs && b in cs && SameGroup(p, u, a) && SameGroup(p, u, b)
        ensures IsUndated(p, a) || IsUndated(p, b) || AreAlike(p, a, b)
      {
        TiesByFields(p, u, a, b);
        TiesByFields(p, u, b, a);
        CompareIsTotal(p, u, a);
        CompareIsTotal(p, u, b);
        CompareIsTotal(p, a, b);
        assert AtMost(p, a, b) && AtMost(p, b, a);
      }
    }
    if UndatedGroupsTie(p, cs) {
      forall a, b, c | a in cs && b in cs && c in cs && AtMost(p, a, b) && AtMost(p, b, c)
        ensures AtMost(p, a, c)
      {
        TransitiveStep(p, cs, a, b, c);
      }
    }
  }

  lemma {:induction false} TransitiveStep(p: Payment, cs: set<Candidate>, a: Candidate, b: Candidate, c: Candidate)
    requires UndatedGroupsTie(p, cs)
    requires a in cs && b in cs && c in cs && AtMost(p, a, b) && AtMost(p, b, c)
    ensures AtMost(p, a, c)
  {
    if !IsUndated(p, a) && !IsUndated(p, b) && !IsUndated(p, c) {
      DatedIsTransitive(p, a, b, c);
    } else if SameGroup(p, a, b) && SameGroup(p, b, c) {
      var u := if IsUndated(p, a) then a else if IsUndated(p, b) then b else c;
      TiesByFields(p, u, a, c);
    }
  }

  /** Three close orders, one without a readable date: the comparator contradicts itself. */
  lemma UndatedOrderContradicts()
    ensures var p := Payment(Some(1000), Some(0));
            var early := Candidate(Some(1000), Some(9), 0.0, 0, false);
            var recent := Candidate(Some(1000), Some(1), 0.0, 0, false);
            var undated := Candidate(Some(1000), None, 0.0, 0, false);
            AtMost(p, early, undated) && AtMost(p, undated, recent) && !AtMost(p, early, recent)
  {
  }

  //// The ranking

  /** A candidate with its place in the list, which decides ties because the sort is stable. */
  datatype Entry = Entry(candidate: Candidate, index: nat)

  predicate Before(p: Payment, x: Entry, y: Entry) {
    match Compare(p, x.candidate, y.candidate)
    case Less => true
    case Equal => x.index < y.index
    case Greater => false
  }

  predicate IsSorted(p: Payment, s: seq<Entry>) {
    forall i, j | 0 <= i < j < |s| :: Before(p, s[i], s[j])
  }

  function Qualified(cs: seq<Candidate>): (r: seq<Entry>)
    ensures forall e | e in r :: e.index < |cs| && cs[e.index] == e.candidate && !e.candidate.disqualified
    ensures forall i | 0 <= i < |cs| && !cs[i].disqualified :: Entry(cs[i], i) in r
  {
    if cs == [] then []
    else
      var n := |cs| - 1;
      Qualified(cs[..n]) + if cs[n].disqualified then [] else [Entry(cs[n], n)]
  }

  /** What a stable sort of the qualified candidates may return. */
  ghost predicate IsRanking(p: Payment, cs: seq<Candidate>, r: seq<Entry>) {
    multiset(r) == multiset(Qualified(cs)) && IsSorted(p, r)
  }

  /** There is at most one: the order does not depend on how the sort works. */
  lemma {:induction false} SortedIsUnique(p: Payment, r: seq<Entry>, s: seq<Entry>)
    requires multiset(r) == multiset(s) && IsSorted(p, r) && IsSorted(p, s)
    ensures r == s
  {
    if r == [] {
      assert |multiset(s)| == 0;
    } else {
      assert |multiset(r)| == |multiset(s)| == |r| == |s|;
      FirstIsUnique(p, r, s);
      assert r == [r[0]] + r[1..] && s == [s[0]] + s[1..];
      assert multiset(r[1..]) == multiset(r) - multiset{r[0]};
      assert multiset(s[1..]) == multiset(s) - multiset{s[0]};
      SortedIsUnique(p, r[1..], s[1..]);
    }
  }

  lemma {:induction false} FirstIsUnique(p: Payment, r: seq<Entry>, s: seq<Entry>)
    requires multiset(r) == multiset(s) && IsSorted(p, r) && IsSorted(p, s) && r != [] && s != []
    ensures r[0] == s[0]
  {
    assert r[0] in multiset(s) && s[0] in multiset(r);
    if r[0] != s[0] {
      CompareIsTotal(p, r[0].candidate, s[0].candidate);
    }
  }

  function Insert(p: Payment, x: Entry, s: seq<Entry>): seq<Entry> {
    if s == [] then [x]
    else if Before(p, x, s[0]) then [x] + s
    else [s[0]] + Insert(p, x, s[1..])
  }

  function Sort(p: Payment, s: seq<Entry>): seq<Entry> {
    if s == [] then [] else Insert(p, s[0], Sort(p, s[1..]))
  }

  //// When there is a ranking

  /** The comparator's order on two dated candidates of one group, key by key. */
  predicate Precedes(p: Payment, a: Candidate, b: Candidate) {
    var age, age' := Distance(p.paidAt, a.createdAt), Distance(p.paidAt, b.createdAt);
    var off, off' := Distance(p.amount, a.expected), Distance(p.amount, b.expected);
    || age < age'
    || (age == age' && (a.score > b.score || (a.score == b.score && (off < off' || (off == off' && a.rank < b.rank)))))
  }

  /** An undated candidate between two dated ones of its group: it ties with both, and they want to change places. */
  predicate StandsBetween(p: Payment, first: Candidate, u: Candidate, last: Candidate) {
    && IsUndated(p, u) && SameGroup(p, u, first) && SameGroup(p, u, last)
    && !IsUndated(p, first) && !IsUndated(p, last)
    && Precedes(p, last, first)
  }

  predicate Obstructs(p: Payment, x: Entry, y: Entry, z: Entry) {
    x.index < y.index < z.index && StandsBetween(p, x.candidate, y.candidate, z.candidate)
  }

  /** No undated candidate stands between two others of the list. */
  predicate NoneStandsBetween(p: Payment, cs: seq<Candidate>) {
    forall i, j, k | 0 <= i < j < k < |cs| && !cs[i].disqualified && !cs[j].disqualified && !cs[k].disqualified ::
      !StandsBetween(p, cs[i], cs[j], cs[k])
  }

  lemma {:induction false} BeforeIsAsymmetric(p: Payment, x: Entry, y: Entry)
    ensures Before(p, x, y) ==> !Before(p, y, x)
    ensures x.index != y.index ==> Before(p, x, y) || Before(p, y, x)
  {
    CompareIsTotal(p, x.candidate, y.candidate);
  }

  /** An obstruction is a cycle: the last goes before the first, the first before the middle, the middle before the last. */
  lemma {:induction false} ObstructionIsCycle(p: Payment, x: Entry, y: Entry, z: Entry)
    requires Obstructs(p, x, y, z)
    ensures Before(p, z, x) && Before(p, x, y) && Before(p, y, z)
  {
  }

  /** Among three of a group of which the third is undated, a cycle is an obstruction. */
  lemma {:induction false} CycleAtUndated(p: Payment, x: Entry, y: Entry, z: Entry)
    requires Before(p, x, y) && Before(p, y, z) && Before(p, z, x)
    requires IsUndated(p, z.candidate) && SameGroup(p, z.candidate, x.candidate) && SameGroup(p, z.candidate, y.candidate)
    ensures Obstructs(p, y, z, x)
  {
  }

  /** Candidates of different groups are in no cycle. */
  lemma {:induction false} CycleIsInGroup(p: Payment, x: Entry, y: Entry, z: Entry)
    requires Before(p, x, y) && Before(p, y, z) && Before(p, z, x)
    requires IsUndated(p, z.candidate)
    ensures SameGroup(p, z.candidate, x.candidate) && SameGroup(p, z.candidate, y.candidate)
  {
  }

  /** All dated: no cycle at all. */
  lemma {:induction false} DatedHasNoCycle(p: Payment, x: Entry, y: Entry, z: Entry)
    requires !IsUndated(p, x.candidate) && !IsUndated(p, y.candidate) && !IsUndated(p, z.candidate)
    requires Before(p, x, y) && Before(p, y, z)
    ensures !Before(p, z, x)
  {
    var a, b, c := x.candidate, y.candidate, z.candidate;
    DatedIsTransitive(p, a, b, c);
    CompareIsTotal(p, a, c);
    if Compare(p, a, c) == Equal {
      DatedIsTransitive(p, b, c, a);
      DatedIsTransitive(p, c, a, b);
      CompareIsTotal(p, a, b);
      CompareIsTotal(p, b, c);
    }
  }

  lemma {:induction false} CycleIsObstruction(p: Payment, x: Entry, y: Entry, z: Entry)
    requires Before(p, x, y) && Before(p, y, z) && Before(p, z, x)
    ensures Obstructs(p, y, z, x) || Obstructs(p, z, x, y) || Obstructs(p, x, y, z)
  {
    if IsUndated(p, z.candidate) {
      CycleIsInGroup(p, x, y, z);
      CycleAtUndated(p, x, y, z);
    } else if IsUndated(p, x.candidate) {
      CycleIsInGroup(p, y, z, x);
      CycleAtUndated(p, y, z, x);
    } else if IsUndated(p, y.candidate) {
      CycleIsInGroup(p, z, x, y);
      CycleAtUndated(p, z, x, y);
    } else {
      DatedHasNoCycle(p, x, y, z);
    }
  }

  lemma {:induction false} BeforeIsTransitive(p: Payment, cs: seq<Candidate>, x: Entry, y: Entry, z: Entry)
    requires NoneStandsBetween(p, cs) && x in Qualified(cs) && y in Qualified(cs) && z in Qualified(cs)
    requires Before(p, x, y) && Before(p, y, z)
    ensures Before(p, x, z)
  {
    BeforeIsAsymmetric(p, x, y);
    BeforeIsAsymmetric(p, x, z);
    if !Before(p, x, z) {
      CycleIsObstruction(p, x, y, z);
    }
  }

  predicate Within(cs: seq<Candidate>, s: seq<Entry>) {
    forall e | e in s :: e in Qualified(cs)
  }

  predicate Distinct(s: seq<Entry>) {
    forall i, j | 0 <= i < j < |s| :: s[i].index != s[j].index
  }

  lemma {:induction false} InsertKeepsElements(p: Payment, x: Entry, s: seq<Entry>)
    ensures multiset(Insert(p, x, s)) == multiset(s) + multiset{x}
  {
    if s != [] {
      assert s == [s[0]] + s[1..];
      InsertKeepsElements(p, x, s[1..]);
    }
  }

  lemma {:induction false} InsertKeepsSorted(p: Payment, cs: seq<Candidate>, x: Entry, s: seq<Entry>)
    requires NoneStandsBetween(p, cs) && Within(cs, s) && x in Qualified(cs)
    requires IsSorted(p, s) && forall e | e in s :: e.index != x.index
    ensures IsSorted(p, Insert(p, x, s))
  {
    if s != [] {
      if Before(p, x, s[0]) {
        forall j | 1 <= j < |s|
          ensures Before(p, x, s[j])
        {
          BeforeIsTransitive(p, cs, x, s[0], s[j]);
        }
      } else {
        BeforeIsAsymmetric(p, x, s[0]);
        InsertKeepsSorted(p, cs, x, s[1..]);
        InsertKeepsElements(p, x, s[1..]);
        var rest := Insert(p, x, s[1..]);
        forall j | 0 <= j < |rest|
          ensures Before(p, s[0], rest[j])
        {
          assert rest[j] in multiset(rest);
          assert rest[j] == x || rest[j] in s[1..];
        }
      }
    }
  }

  lemma {:induction false} SortKeepsElements(p: Payment, s: seq<Entry>)
    ensures multiset(Sort(p, s)) == multiset(s)
  {
    if s != [] {
      SortKeepsElements(p, s[1..]);
      InsertKeepsElements(p, s[0], Sort(p, s[1..]));
      assert s == [s[0]] + s[1..];
    }
  }

  lemma {:induction false} SortedMembers(p: Payment, s: seq<Entry>, e: Entry)
    requires e in Sort(p, s)
    ensures e in s
  {
    SortKeepsElements(p, s);
    assert e in multiset(Sort(p, s));
  }

  lemma {:induction false} SortSorts(p: Payment, cs: seq<Candidate>, s: seq<Entry>)
    requires NoneStandsBetween(p, cs) && Within(cs, s) && Distinct(s)
    ensures IsSorted(p, Sort(p, s))
  {
    if s != [] {
      var rest := s[1..];
      SortSorts(p, cs, rest);
      forall e | e in Sort(p, rest)
        ensures e in Qualified(cs) && e.index != s[0].index
      {
        SortedMembers(p, rest, e);
      }
      InsertKeepsSorted(p, cs, s[0], Sort(p, rest));
    }
  }

  lemma {:induction false} QualifiedIsDistinct(cs: seq<Candidate>)
    ensures Distinct(Qualified(cs))
  {
    if cs != [] {
      var n := |cs| - 1;
      QualifiedIsDistinct(cs[..n]);
      var front := Qualified(cs[..n]);
      assert forall i | 0 <= i < |front| :: front[i] in front;
    }
  }

  function Rank(p: Payment, cs: seq<Candidate>): seq<Entry> {
    Sort(p, Qualified(cs))
  }

  lemma {:induction false} SortedHasNoCycle(p: Payment, r: seq<Entry>, i: nat, j: nat, k: nat)
    requires IsSorted(p, r) && i < |r| && j < |r| && k < |r|
    requires Before(p, r[i], r[j]) && Before(p, r[j], r[k])
    ensures !Before(p, r[k], r[i])
  {
    BeforeIsAsymmetric(p, r[i], r[j]);
    BeforeIsAsymmetric(p, r[j], r[k]);
    BeforeIsAsymmetric(p, r[k], r[i]);
    BeforeIsAsymmetric(p, r[i], r[i]);
    BeforeIsAsymmetric(p, r[j], r[j]);
    BeforeIsAsymmetric(p, r[k], r[k]);
  }

  /** Where a ranking exists, nothing obstructs it. */
  lemma {:induction false} RankingIsUnobstructed(p: Payment, cs: seq<Candidate>, r: seq<Entry>)
    requires IsRanking(p, cs, r)
    ensures NoneStandsBetween(p, cs)
  {
    forall i, j, k | 0 <= i < j < k < |cs| && !cs[i].disqualified && !cs[j].disqualified && !cs[k].disqualified
      ensures !StandsBetween(p, cs[i], cs[j], cs[k])
    {
      if StandsBetween(p, cs[i], cs[j], cs[k]) {
        var x, y, z := Entry(cs[i], i), Entry(cs[j], j), Entry(cs[k], k);
        ObstructionIsCycle(p, x, y, z);
        assert x in multiset(Qualified(cs)) && y in multiset(Qualified(cs)) && z in multiset(Qualified(cs));
        assert x in multiset(r) && y in multiset(r) && z in multiset(r);
        var a :| 0 <= a < |r| && r[a] == x;
        var b :| 0 <= b < |r| && r[b] == y;
        var c :| 0 <= c < |r| && r[c] == z;
        SortedHasNoCycle(p, r, a, b, c);
      }
    }
  }

  /** A stable ranking exists exactly when no undated candidate stands between two of its group in the wrong order. */
  lemma {:induction false} RankingExistsExactly(p: Payment, cs: seq<Candidate>)
    ensures IsRanking(p, cs, Rank(p, cs)) <==> NoneStandsBetween(p, cs)
  {
    if IsRanking(p, cs, Rank(p, cs)) {
      RankingIsUnobstructed(p, cs, Rank(p, cs));
    }
    if NoneStandsBetween(p, cs) {
      QualifiedIsDistinct(cs);
      SortKeepsElements(p, Qualified(cs));
      SortSorts(p, cs, Qualified(cs));
    }
  }

  /** The ranking, wherever there is one, is `Rank`, and it puts exact matches first. */
  lemma {:induction false} RankIsTheRanking(p: Payment, cs: seq<Candidate>, r: seq<Entry>)
    ensures IsRanking(p, cs, r) <==> r == Rank(p, cs) && NoneStandsBetween(p, cs)
    ensures IsRanking(p, cs, r) ==>
              forall i, j | 0 <= i < j < |r| :: IsExact(p, r[j].candidate) ==> IsExact(p, r[i].candidate)
  {
    RankingExistsExactly(p, cs);
    if IsRanking(p, cs, r) {
      RankingIsUnobstructed(p, cs, r);
      SortedIsUnique(p, r, Rank(p, cs));
    }
  }

  /** With readable dates on all close candidates nothing stands between. */
  lemma {:induction false} DatedListsAreRanked(p: Payment, cs: seq<Candidate>)
    requires forall i | 0 <= i < |cs| && !cs[i].disqualified :: !IsUndated(p, cs[i])
    ensures IsRanking(p, cs, Rank(p, cs))
  {
    RankingExistsExactly(p, cs);
  }

  /** An old order, an undated one and a recent one, all exact, in this order: no stable ranking exists. */
  lemma {:induction false} NoRankingOfThree(r: seq<Entry>)
    ensures var p := Payment(Some(1000), Some(0));
            var early := Candidate(Some(1000), Some(9), 0.0, 0, false);
            var recent := Candidate(Some(1000), Some(1), 0.0, 0, false);
            var undated := Candidate(Some(1000), None, 0.0, 0, false);
            !IsRanking(p, [early, undated, recent], r)
  {
    var p := Payment(Some(1000), Some(0));
    var early := Candidate(Some(1000), Some(9), 0.0, 0, false);
    var recent := Candidate(Some(1000), Some(1), 0.0, 0, false);
    var undated := Candidate(Some(1000), None, 0.0, 0, false);
    var cs := [early, undated, recent];
    if IsRanking(p, cs, r) {
      RankingIsUnobstructed(p, cs, r);
      assert StandsBetween(p, cs[0], cs[1], cs[2]);
    }
  }

  //// The order of a ranking, key by key

  function Gap(x: int, y: int): nat {
    if x < y then y - x else x - y
  }

  /** How far the expected amount is from the payment; an amount that cannot be read counts as no distance. */
  function Off(p: Payment, c: Candidate): nat {
    match (p.amount, c.expected)
    case (Some(paid), Some(expected)) => Gap(paid, expected)
    case _ => 0
  }

  /** The amount fits exactly, or one of the two cannot be read. */
  predicate FitsExactly(p: Payment, c: Candidate) {
    p.amount.Some? && c.expected.Some? ==> p.amount == c.expected
  }

  /** Within five percent of a positive expected amount. */
  predicate IsWithinFivePercent(p: Payment, c: Candidate) {
    && c.expected.Some? && c.expected.value > 0
    && (p.amount.Some? ==> 20 * Gap(p.amount.value, c.expected.value) <= c.expected.value)
  }

  /** Higher score, then smaller distance, then smaller rank, then place in the list. */
  predicate IsBetter(p: Payment, x: Entry, y: Entry) {
    var a, b := x.candidate, y.candidate;
    || a.score > b.score
    || (a.score == b.score && (|| Off(p, a) < Off(p, b)
                               || (Off(p, a) == Off(p, b) && (|| a.rank < b.rank
                                                              || (a.rank == b.rank && x.index < y.index)))))
  }

  /** Exact matches, then close ones; among close ones of a dated payment the one created nearer to it; then the better. */
  predicate ComesBefore(p: Payment, x: Entry, y: Entry) {
    var a, b := x.candidate, y.candidate;
    if FitsExactly(p, a) != FitsExactly(p, b) then FitsExactly(p, a)
    else if IsWithinFivePercent(p, a) != IsWithinFivePercent(p, b) then IsWithinFivePercent(p, a)
    else if !IsWithinFivePercent(p, a) || p.paidAt.None? then IsBetter(p, x, y)
    else if a.createdAt.None? || b.createdAt.None? then x.index < y.index
    else
      var age, age' := Gap(p.paidAt.value, a.createdAt.value), Gap(p.paidAt.value, b.createdAt.value);
      age < age' || (age == age' && IsBetter(p, x, y))
  }

  lemma {:induction false} CloseIsFivePercent(p: Payment, c: Candidate)
    ensures IsClose(p, c) <==> IsWithinFivePercent(p, c)
    ensures IsExact(p, c) <==> FitsExactly(p, c)
    ensures Distance(p.amount, c.expected) == Off(p, c)
  {
  }

  lemma {:induction false} BeforeByKeys(p: Payment, x: Entry, y: Entry)
    ensures Before(p, x, y) <==> ComesBefore(p, x, y)
  {
    CloseIsFivePercent(p, x.candidate);
    CloseIsFivePercent(p, y.candidate);
  }

  /** In every ranking each candidate comes before all later ones in this order. */
  lemma {:induction false} RankingIsByKeys(p: Payment, cs: seq<Candidate>, r: seq<Entry>, i: nat, j: nat)
    requires IsRanking(p, cs, r) && i < j < |r|
    ensures ComesBefore(p, r[i], r[j])
    ensures FitsExactly(p, r[j].candidate) ==> FitsExactly(p, r[i].candidate)
    ensures FitsExactly(p, r[i].candidate) == FitsExactly(p, r[j].candidate) ==>
              (IsWithinFivePercent(p, r[j].candidate) ==> IsWithinFivePercent(p, r[i].candidate))
  {
    BeforeByKeys(p, r[i], r[j]);
  }

  /** A ranking holds exactly the candidates that are not disqualified, each with its place in the list. */
  lemma {:induction false} RankingIsComplete(p: Payment, cs: seq<Candidate>, r: seq<Entry>, e: Entry)
    requires IsRanking(p, cs, r)
    ensures e in r <==> e.index < |cs| && cs[e.index] == e.candidate && !e.candidate.disqualified
    ensures forall i, j | 0 <= i < j < |r| :: r[i] != r[j]
  {
    assert e in r <==> e in multiset(r);
    assert e in Qualified(cs) <==> e in multiset(Qualified(cs));
    forall i, j | 0 <= i < j < |r|
      ensures r[i] != r[j]
    {
      BeforeIsAsymmetric(p, r[i], r[j]);
    }
  }
}
