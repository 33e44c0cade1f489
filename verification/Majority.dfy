/** Agreement between RPC endpoints: a digest needs more than half of the endpoints that answered. */
module Majority {
  import opened Prelude

  /** What an endpoint says about one block range: logs with a digest, no logs, or an error. */
  datatype Answer = Logs(digest: string) | NoLogs | Failed

  function Answered(answers: seq<Answer>): nat {
    if answers == [] then 0
    else Answered(answers[..|answers| - 1]) + if answers[|answers| - 1].Failed? then 0 else 1
  }

  function Votes(answers: seq<Answer>, d: string): nat {
    if answers == [] then 0
    else Votes(answers[..|answers| - 1], d) + if answers[|answers| - 1] == Logs(d) then 1 else 0
  }

  predicate HasMajority(answers: seq<Answer>, d: string) {
    2 * Votes(answers, d) > Answered(answers)
  }

  lemma {:induction false} VotesAreDisjoint(answers: seq<Answer>, d: string, e: string)
    requires d != e
    ensures Votes(answers, d) + Votes(answers, e) <= Answered(answers)
  {
    if answers != [] {
      VotesAreDisjoint(answers[..|answers| - 1], d, e);
    }
  }

  lemma {:induction false} MajorityIsUnique(answers: seq<Answer>, d: string, e: string)
    requires HasMajority(answers, d) && HasMajority(answers, e)
    ensures d == e
  {
    if d != e {
      VotesAreDisjoint(answers, d, e);
    }
  }

  /** The counter of digests: how often each was given, in the order of first appearance. */
  ghost predicate Counts(answers: seq<Answer>, counts: map<string, nat>, order: seq<string>) {
    && (forall d | d in order :: d in counts)
    && (forall d | d in counts :: d in order && counts[d] == Votes(answers, d))
    && (forall d | d !in counts :: Votes(answers, d) == 0)
  }

  method Count(answers: seq<Answer>) returns (counts: map<string, nat>, order: seq<string>, answered: nat)
    ensures Counts(answers, counts, order) && answered == Answered(answers)
  {
    counts, order, answered := map[], [], 0;
    for i := 0 to |answers|
      invariant Counts(answers[..i], counts, order) && answered == Answered(answers[..i])
    {
      assert answers[..i + 1][..i] == answers[..i];
      match answers[i]
      case Logs(d) =>
        if d in counts {
          counts := counts[d := counts[d] + 1];
        } else {
          counts, order := counts[d := 1], order + [d];
        }
        answered := answered + 1;
      case NoLogs => answered := answered + 1;
      case Failed =>
    }
    assert answers[..|answers|] == answers;
  }

  method MajorityOf(answers: seq<Answer>) returns (r: Option<string>)
    ensures forall d :: r == Some(d) <==> HasMajority(answers, d)
  {
    var counts, order, answered := Count(answers);
    if order == [] {
      return None;
    }
    var best := order[0];
    for i := 1 to |order|
      invariant best in order
      invariant forall k | 0 <= k < i :: counts[order[k]] <= counts[best]
    {
      if counts[order[i]] > counts[best] {
        best := order[i];
      }
    }
    r := if counts[best] * 2 > answered then Some(best) else None;
    forall d | HasMajority(answers, d)
      ensures r == Some(d)
    {
      assert d in counts;
      MajorityIsUnique(answers, d, best);
    }
  }

  //// Both ranges

  datatype Probe = Probe(id: string, recent: Answer, archive: Answer)

  function Recent(probes: seq<Probe>): seq<Answer> {
    seq(|probes|, i requires 0 <= i < |probes| => probes[i].recent)
  }

  function Archive(probes: seq<Probe>): seq<Answer> {
    seq(|probes|, i requires 0 <= i < |probes| => probes[i].archive)
  }

  predicate Agrees(answers: seq<Answer>, a: Answer) {
    a.Logs? && HasMajority(answers, a.digest)
  }

  predicate AgreesOnBoth(probes: seq<Probe>, p: Probe) {
    Agrees(Recent(probes), p.recent) && Agrees(Archive(probes), p.archive)
  }

  /** How many of `some` agree with the majorities of `all`. */
  function Agreeing(all: seq<Probe>, some: seq<Probe>): nat {
    if some == [] then 0
    else Agreeing(all, some[..|some| - 1]) + if AgreesOnBoth(all, some[|some| - 1]) then 1 else 0
  }

  /** The end of `probe_chain`, before the ids are sorted. */
  method Agreement(probes: seq<Probe>, minAgreeing: nat) returns (ids: seq<string>, ok: bool)
    ensures forall p | p in probes && AgreesOnBoth(probes, p) :: p.id in ids
    ensures forall id | id in ids :: exists p :: p in probes && p.id == id && AgreesOnBoth(probes, p)
    ensures |ids| == Agreeing(probes, probes) && (ok <==> |ids| >= minAgreeing)
  {
    var recent := MajorityOf(Recent(probes));
    var archive := MajorityOf(Archive(probes));
    ids := [];
    for i := 0 to |probes|
      invariant forall p | p in probes[..i] && AgreesOnBoth(probes, p) :: p.id in ids
      invariant forall id | id in ids :: exists p :: p in probes && p.id == id && AgreesOnBoth(probes, p)
      invariant |ids| == Agreeing(probes, probes[..i])
    {
      var p := probes[i];
      assert probes[..i + 1] == probes[..i] + [p];
      var agrees := && p.recent.Logs? && recent == Some(p.recent.digest)
                    && p.archive.Logs? && archive == Some(p.archive.digest);
      assert agrees == AgreesOnBoth(probes, p);
      if agrees {
        ids := ids + [p.id];
      }
    }
    assert probes[..|probes|] == probes;
    ok := |ids| >= minAgreeing;
  }

  /** Any two agreeing endpoints gave equal digests, and a log at all, in both ranges. */
  lemma {:induction false} AgreeingGaveTheSame(probes: seq<Probe>, p: Probe, q: Probe)
    requires AgreesOnBoth(probes, p) && AgreesOnBoth(probes, q)
    ensures p.recent.Logs? && p.archive.Logs?
    ensures p.recent == q.recent && p.archive == q.archive
  {
    MajorityIsUnique(Recent(probes), p.recent.digest, q.recent.digest);
    MajorityIsUnique(Archive(probes), p.archive.digest, q.archive.digest);
  }

  /** The vote does not depend on the order of the answers. */
  lemma {:induction false} VotesOfPermutation(a: seq<Answer>, b: seq<Answer>, d: string)
    requires multiset(a) == multiset(b)
    ensures Votes(a, d) == Votes(b, d) && Answered(a) == Answered(b)
  {
    VotesAreMultiplicity(a, d);
    VotesAreMultiplicity(b, d);
    AnsweredIsMultiplicity(a);
    AnsweredIsMultiplicity(b);
    assert |multiset(a)| == |multiset(b)|;
  }

  lemma {:induction false} VotesAreMultiplicity(a: seq<Answer>, d: string)
    ensures Votes(a, d) == multiset(a)[Logs(d)]
  {
    if a != [] {
      VotesAreMultiplicity(a[..|a| - 1], d);
      assert a == a[..|a| - 1] + [a[|a| - 1]];
    }
  }

  lemma {:induction false} AnsweredIsMultiplicity(a: seq<Answer>)
    ensures Answered(a) == |a| - multiset(a)[Failed]
  {
    if a != [] {
      AnsweredIsMultiplicity(a[..|a| - 1]);
      assert a == a[..|a| - 1] + [a[|a| - 1]];
    }
  }
}
