/** The order in which compiled candidates are reported (domain/candidates.py). */
module Ranking {
  import opened Schemas
  import opened Clock

  /** Strings compare by their first difference. */
  predicate TextBefore(a: string, b: string) {
    if b == [] then false
    else if a == [] then true
    else if a[0] != b[0] then a[0] < b[0]
    else TextBefore(a[1..], b[1..])
  }

  /** How an action is written in a candidate id. */
  function ActionText(a: Action): string {
    match a
    case IndexCondor => "index_condor"
    case CallDebitSpread => "call_debit_spread"
    case PutDebitSpread => "put_debit_spread"
    case EarningsCondor => "earnings_condor"
    case Hedge => "hedge"
    case Abstain => "abstain"
  }

  /** Ids are written as underlying, action and date, then strikes; ids equal up to the strikes, which only a
      repeated underlying can yield, are taken to tie. */
  predicate IdBefore(a: CandidateName, b: CandidateName) {
    if a.underlying != b.underlying then TextBefore(a.underlying, b.underlying)
    else if a.action != b.action then TextBefore(ActionText(a.action), ActionText(b.action))
    else a.expiration / DAY < b.expiration / DAY
  }

  /** Higher scores first, equal scores by id. */
  predicate Outranks(a: Candidate, b: Candidate) {
    a.score > b.score || (a.score == b.score && IdBefore(a.id, b.id))
  }

  /** Puts a candidate after every one it does not outrank. */
  function Insert(c: Candidate, ranked: seq<Candidate>): seq<Candidate> {
    if ranked == [] || !Outranks(c, ranked[|ranked| - 1]) then ranked + [c]
    else Insert(c, ranked[..|ranked| - 1]) + [ranked[|ranked| - 1]]
  }

  function Ranked(cs: seq<Candidate>): seq<Candidate> {
    if cs == [] then [] else Insert(cs[|cs| - 1], Ranked(cs[..|cs| - 1]))
  }

  // ------------------------------------------------------------------------- laws

  /** No candidate outranks an earlier one. */
  predicate IsRanked(cs: seq<Candidate>) {
    forall j, k :: 0 <= j < k < |cs| ==> !Outranks(cs[k], cs[j])
  }

  lemma {:induction false} TextBeforeThrough(a: string, b: string, c: string)
    requires TextBefore(a, c)
    ensures TextBefore(a, b) || TextBefore(b, c)
  {
    if a != [] && b != [] && c != [] && a[0] == b[0] == c[0] {
      TextBeforeThrough(a[1..], b[1..], c[1..]);
    }
  }

  lemma {:induction false} TextOrderIsStrict(a: string, b: string)
    ensures TextBefore(a, b) ==> !TextBefore(b, a)
    ensures a == b || TextBefore(a, b) || TextBefore(b, a)
  {
    if a != [] && b != [] && a[0] == b[0] {
      TextOrderIsStrict(a[1..], b[1..]);
      assert a == [a[0]] + a[1..] && b == [b[0]] + b[1..];
    }
  }

  lemma ActionTextsDiffer(a: Action, b: Action)
    requires ActionText(a) == ActionText(b)
    ensures a == b
  {
    assert |"index_condor"| == 12 && |"call_debit_spread"| == 17 && |"put_debit_spread"| == 16;
    assert |"earnings_condor"| == 15 && |"hedge"| == 5 && |"abstain"| == 7;
  }

  lemma IdBeforeThrough(a: CandidateName, b: CandidateName, c: CandidateName)
    requires IdBefore(a, c)
    ensures IdBefore(a, b) || IdBefore(b, c)
  {
    hide TextBefore, ActionText;
    if a.underlying != c.underlying {
      TextBeforeThrough(a.underlying, b.underlying, c.underlying);
      TextOrderIsStrict(a.underlying, b.underlying);
      TextOrderIsStrict(b.underlying, c.underlying);
    } else if b.underlying != a.underlying {
      TextOrderIsStrict(a.underlying, b.underlying);
    } else if a.action != c.action {
      TextBeforeThrough(ActionText(a.action), ActionText(b.action), ActionText(c.action));
    } else if b.action != a.action {
      TextOrderIsStrict(ActionText(a.action), ActionText(b.action));
      if ActionText(a.action) == ActionText(b.action) {
        ActionTextsDiffer(a.action, b.action);
      }
    }
  }

  lemma OutranksThrough(a: Candidate, b: Candidate, c: Candidate)
    requires Outranks(a, c)
    ensures Outranks(a, b) || Outranks(b, c)
  {
    hide IdBefore;
    if a.score == b.score == c.score {
      IdBeforeThrough(a.id, b.id, c.id);
    }
  }

  lemma IdOrderIsStrict(a: CandidateName, b: CandidateName)
    ensures IdBefore(a, b) ==> !IdBefore(b, a)
  {
    hide TextBefore, ActionText;
    TextOrderIsStrict(a.underlying, b.underlying);
    TextOrderIsStrict(ActionText(a.action), ActionText(b.action));
  }

  lemma {:induction false} InsertKeeps(c: Candidate, ranked: seq<Candidate>)
    ensures multiset(Insert(c, ranked)) == multiset(ranked) + multiset{c}
  {
    if ranked != [] {
      InsertKeeps(c, ranked[..|ranked| - 1]);
      assert ranked == ranked[..|ranked| - 1] + [ranked[|ranked| - 1]];
    }
  }

  lemma {:induction false} InsertRanks(c: Candidate, ranked: seq<Candidate>)
    requires IsRanked(ranked)
    ensures IsRanked(Insert(c, ranked))
  {
    hide Outranks;
    if ranked != [] {
      var n := |ranked| - 1;
      var last, r := ranked[n], Insert(c, ranked);
      if Outranks(c, last) {
        OutrankingIsStrict(c, last);
        InsertRanks(c, ranked[..n]);
        InsertKeeps(c, ranked[..n]);
        forall j | 0 <= j < |r| - 1 ensures !Outranks(last, r[j]) {
          assert r[j] in multiset(Insert(c, ranked[..n]));
          assert r[j] == c || r[j] in ranked[..n];
        }
      } else {
        forall j | 0 <= j < |ranked| ensures !Outranks(c, ranked[j]) {
          if Outranks(c, ranked[j]) {
            OutranksThrough(c, last, ranked[j]);
          }
        }
      }
    }
  }

  lemma OutrankingIsStrict(a: Candidate, b: Candidate)
    ensures Outranks(a, b) ==> !Outranks(b, a)
  {
    hide IdBefore;
    IdOrderIsStrict(a.id, b.id);
  }

  /** The report holds exactly the compiled candidates, and none of them outranks an earlier one. */
  lemma {:induction false} RankedSorts(cs: seq<Candidate>)
    ensures multiset(Ranked(cs)) == multiset(cs) && IsRanked(Ranked(cs))
    ensures forall c :: c in Ranked(cs) <==> c in cs
  {
    hide Insert, IsRanked;
    if cs == [] {
      NothingRanked();
    } else {
      var n := |cs| - 1;
      RankedSorts(cs[..n]);
      InsertKeeps(cs[n], Ranked(cs[..n]));
      InsertRanks(cs[n], Ranked(cs[..n]));
      assert cs == cs[..n] + [cs[n]];
    }
    forall c ensures c in Ranked(cs) <==> c in cs {
      assert c in Ranked(cs) <==> c in multiset(Ranked(cs));
      assert c in cs <==> c in multiset(cs);
    }
  }

  lemma NothingRanked()
    ensures IsRanked([])
  {
  }
}
