/**
 What the scoreboard is computed from, and what its numbers are, over exact reals. The
 0.75-th power and the square root are arbitrary functions.
 */
module Scoring {
  import opened Text
  import opened ServiceState
  import opened Postings

  datatype IssuedFlag = IssuedFlag(
    flag: string, owner: int, ownerName: string, challenge: int, service: string, issued: int, expires: int)

  datatype Submission = Submission(
    flag: string,
    team: int,
    attacker: string,
    victim: string,
    service: string,
    challenge: int,
    tick: int,
    expires: int)

  // The part of the store the scores are computed from.
  datatype Ledger = Ledger(
    teams: map<int, string>,
    services: map<int, string>,
    flags: map<string, IssuedFlag>,
    accepted: map<string, Submission>,
    states: map<Key, Summary>)

  datatype Curves = Curves(power: nat -> real, root: nat -> real)

  function SubmissionKey(flag: string, team: int): string { flag + ":" + PrintInt(team) }

  lemma SubmissionKeyInjective(flag: string, team: int, flag': string, team': int)
    requires SubmissionKey(flag, team) == SubmissionKey(flag', team')
    ensures flag == flag' && team == team'
  {
    PrintIntCharacters(team);
    PrintIntCharacters(team');
    LastCutUnique(flag, PrintInt(team), flag', PrintInt(team'), ':');
    PrintIntInjective(team, team');
  }

  // ---------------------------------------------------------------- values

  function AttackValue(captures: nat): real { if captures == 0 then 0.0 else 1.0 + 1.0 / captures as real }

  function DefensePenalty(curves: Curves, captures: nat): real {
    if captures == 0 then 0.0 else (curves.power)(captures)
  }

  function SlaValue(status: ServiceStatus): real {
    match status
    case Ok => 1.0
    case Recovering => 0.5
    case _ => 0.0
  }

  function SlaFactor(curves: Curves, teams: nat): real { if teams == 0 then 0.0 else (curves.root)(teams) }

  // ---------------------------------------------------------------- the three books

  function Captures(l: Ledger, flag: string): set<string> {
    set k | k in l.accepted && l.accepted[k].flag == flag
  }

  // A flag that is not on record reads as the zero record.
  function ChallengeOf(l: Ledger, flag: string): int { if flag in l.flags then l.flags[flag].challenge else 0 }

  function AttackPosting(l: Ledger, s: Submission): Posting {
    Posting(s.team, ChallengeOf(l, s.flag), AttackValue(|Captures(l, s.flag)|))
  }

  function AttackBook(l: Ledger): map<string, Posting> {
    map k | k in l.accepted :: AttackPosting(l, l.accepted[k])
  }

  function PenaltyPosting(curves: Curves, f: IssuedFlag, captures: nat): Posting {
    Posting(f.owner, f.challenge, -DefensePenalty(curves, captures))
  }

  function DefensePosting(l: Ledger, curves: Curves, f: IssuedFlag): Posting {
    PenaltyPosting(curves, f, |Captures(l, f.flag)|)
  }

  predicate Captured(l: Ledger, f: IssuedFlag) { |Captures(l, f.flag)| > 0 }

  function DefenseBook(l: Ledger, curves: Curves): map<string, Posting> {
    map f | f in l.flags && Captured(l, l.flags[f]) :: DefensePosting(l, curves, l.flags[f])
  }

  function SlaPosting(key: Key, state: Summary): Posting {
    Posting(key.team, key.challenge, SlaValue(state.status))
  }

  // Before scaling by the number of teams, and after.
  function PlainSlaBook(l: Ledger): map<Key, Posting> {
    map key | key in l.states :: SlaPosting(key, l.states[key])
  }

  function SlaBook(l: Ledger, curves: Curves): map<Key, Posting> {
    Scaled(PlainSlaBook(l), By(SlaFactor(curves, |l.teams|)))
  }

  ghost function Attack(l: Ledger, scope: Scope): real { Sum(AttackBook(l), scope) }

  ghost function Defense(l: Ledger, curves: Curves, scope: Scope): real { Sum(DefenseBook(l, curves), scope) }

  ghost function Sla(l: Ledger, curves: Curves, scope: Scope): real { Sum(SlaBook(l, curves), scope) }

  // The factor may be applied to the sums, as the recomputation does.
  lemma SlaIsScaledSum(l: Ledger, curves: Curves, scope: Scope)
    ensures Sla(l, curves, scope) == By(SlaFactor(curves, |l.teams|))(Sum(PlainSlaBook(l), scope))
  {
    SumOfScaled(PlainSlaBook(l), SlaFactor(curves, |l.teams|), scope);
  }

  // ---------------------------------------------------------------- all attack points

  function CapturedFlags(l: Ledger): set<string> { set k | k in l.accepted :: l.accepted[k].flag }

  // The attack postings for some of the flags.
  function BookOf(l: Ledger, flags: set<string>): map<string, Posting> {
    map k | k in l.accepted && l.accepted[k].flag in flags :: AttackPosting(l, l.accepted[k])
  }

  lemma BookOfOne(l: Ledger, flag: string)
    ensures BookOf(l, {flag}).Keys == Captures(l, flag)
    ensures forall k :: k in BookOf(l, {flag}) ==>
              BookOf(l, {flag})[k].amount == AttackValue(|Captures(l, flag)|)
  {
  }

  lemma BookSplits(l: Ledger, flags: set<string>, flag: string)
    requires flag in flags
    ensures BookOf(l, flags) == BookOf(l, flags - {flag}) + BookOf(l, {flag})
    ensures BookOf(l, flags - {flag}).Keys !! BookOf(l, {flag}).Keys
  {
  }

  lemma AllCaptures(captures: nat)
    requires captures > 0
    ensures Times(captures, AttackValue(captures)) == captures as real + 1.0
  {
    TimesIsProduct(captures, AttackValue(captures));
    var c := captures as real;
    assert c * (1.0 + 1.0 / c) == c + c * (1.0 / c);
  }

  lemma FlagTotal(l: Ledger, flag: string)
    requires Captures(l, flag) != {}
    ensures Sum(BookOf(l, {flag}), Everyone) == |Captures(l, flag)| as real + 1.0
  {
    var book := BookOf(l, {flag});
    BookOfOne(l, flag);
    SumOfEqual(book, AttackValue(|Captures(l, flag)|), Everyone);
    assert Covered(book, Everyone) == Captures(l, flag);
    AllCaptures(|Captures(l, flag)|);
  }

  lemma {:induction false} TotalOf(l: Ledger, flags: set<string>)
    requires flags <= CapturedFlags(l)
    ensures Sum(BookOf(l, flags), Everyone) == |BookOf(l, flags).Keys| as real + |flags| as real
  {
    if flags == {} {
      assert BookOf(l, flags).Keys == {};
    } else {
      var flag :| flag in flags;
      var k :| k in l.accepted && l.accepted[k].flag == flag;
      assert k in Captures(l, flag);
      var rest := BookOf(l, flags - {flag});
      TotalOf(l, flags - {flag});
      BookSplits(l, flags, flag);
      BookOfOne(l, flag);
      FlagTotal(l, flag);
      SumUnion(rest, BookOf(l, {flag}), Everyone);
      assert BookOf(l, flags).Keys == rest.Keys + Captures(l, flag);
    }
  }

  // Each accepted submission is worth one point, and each captured flag one more.
  lemma TotalAttack(l: Ledger)
    ensures Attack(l, Everyone) == |l.accepted| as real + |CapturedFlags(l)| as real
  {
    var flags := CapturedFlags(l);
    TotalOf(l, flags);
    assert BookOf(l, flags) == AttackBook(l);
    assert AttackBook(l).Keys == l.accepted.Keys;
  }

  // ---------------------------------------------------------------- what one capture changes

  ghost predicate Filed(l: Ledger) {
    && (forall k :: k in l.accepted ==> k == SubmissionKey(l.accepted[k].flag, l.accepted[k].team))
    && (forall f :: f in l.flags ==> l.flags[f].flag == f)
  }

  function Accept(l: Ledger, s: Submission): Ledger {
    l.(accepted := l.accepted[SubmissionKey(s.flag, s.team) := s])
  }

  predicate New(l: Ledger, s: Submission) { SubmissionKey(s.flag, s.team) !in l.accepted }

  ghost predicate CapturedBy(l: Ledger, flag: string, team: int) { SubmissionKey(flag, team) in Captures(l, flag) }

  lemma CapturesAfter(l: Ledger, s: Submission, flag: string)
    requires New(l, s)
    ensures Captures(Accept(l, s), flag)
         == if flag == s.flag then Captures(l, flag) + {SubmissionKey(s.flag, s.team)} else Captures(l, flag)
  {
  }

  lemma OneMoreCapture(l: Ledger, s: Submission)
    requires New(l, s)
    ensures |Captures(Accept(l, s), s.flag)| == |Captures(l, s.flag)| + 1
  {
    CapturesAfter(l, s, s.flag);
  }

  // The postings for the captured flag, at the value they have after one more capture.
  function Repriced(l: Ledger, s: Submission): map<string, Posting> {
    map k | k in Captures(l, s.flag) :: AttackPosting(Accept(l, s), l.accepted[k])
  }

  function Others(l: Ledger, flag: string): map<string, Posting> {
    map k | k in l.accepted && l.accepted[k].flag != flag :: AttackPosting(l, l.accepted[k])
  }

  lemma BookBefore(l: Ledger, flag: string)
    ensures AttackBook(l) == Others(l, flag) + BookOf(l, {flag})
    ensures Others(l, flag).Keys !! BookOf(l, {flag}).Keys
  {
  }

  lemma OthersKeepValue(l: Ledger, s: Submission, k: string)
    requires New(l, s) && k in l.accepted && l.accepted[k].flag != s.flag
    ensures AttackPosting(Accept(l, s), l.accepted[k]) == AttackPosting(l, l.accepted[k])
  {
    CapturesAfter(l, s, l.accepted[k].flag);
  }

  lemma BookAfterKeys(l: Ledger, s: Submission)
    requires New(l, s)
    ensures Others(l, s.flag).Keys !! Repriced(l, s).Keys
    ensures Others(l, s.flag).Keys + Repriced(l, s).Keys == l.accepted.Keys
  {
  }

  lemma BookAfterAt(l: Ledger, s: Submission, k: string)
    requires New(l, s) && k in l.accepted
    ensures AttackPosting(Accept(l, s), l.accepted[k]) == (Others(l, s.flag) + Repriced(l, s))[k]
  {
    if l.accepted[k].flag != s.flag {
      OthersKeepValue(l, s, k);
    }
  }

  lemma SamePostings(a: map<string, Posting>, b: map<string, Posting>)
    requires a.Keys == b.Keys && forall k :: k in a ==> a[k] == b[k]
    ensures a == b
  {
  }

  lemma BookAfter(l: Ledger, s: Submission)
    requires New(l, s)
    ensures AttackBook(Accept(l, s))
         == (Others(l, s.flag) + Repriced(l, s))[SubmissionKey(s.flag, s.team) := AttackPosting(Accept(l, s), s)]
    ensures Others(l, s.flag).Keys !! Repriced(l, s).Keys
    ensures SubmissionKey(s.flag, s.team) !in Others(l, s.flag) + Repriced(l, s)
  {
    BookAfterKeys(l, s);
    var key, kept, book := SubmissionKey(s.flag, s.team), Others(l, s.flag) + Repriced(l, s), AttackBook(Accept(l, s));
    var grown := kept[key := AttackPosting(Accept(l, s), s)];
    assert kept.Keys == l.accepted.Keys;
    forall k | k in book ensures book[k] == grown[k] {
      if k != key {
        BookAfterAt(l, s, k);
      }
    }
    SamePostings(book, grown);
  }

  lemma RepricedAmounts(l: Ledger, s: Submission)
    requires New(l, s)
    ensures forall k :: k in Repriced(l, s) ==> Repriced(l, s)[k].amount == AttackValue(|Captures(l, s.flag)| + 1)
  {
    OneMoreCapture(l, s);
  }

  lemma RepricedSum(l: Ledger, s: Submission, scope: Scope)
    requires New(l, s)
    ensures Sum(Repriced(l, s), scope)
         == Times(|Covered(BookOf(l, {s.flag}), scope)|, AttackValue(|Captures(l, s.flag)| + 1))
  {
    RepricedAmounts(l, s);
    SumOfEqual(Repriced(l, s), AttackValue(|Captures(l, s.flag)| + 1), scope);
    RepricedCovers(l, s, scope);
  }

  lemma RepricedCovers(l: Ledger, s: Submission, scope: Scope)
    requires New(l, s)
    ensures Covered(Repriced(l, s), scope) == Covered(BookOf(l, {s.flag}), scope)
  {
  }

  lemma AttackBefore(l: Ledger, flag: string, scope: Scope)
    ensures Attack(l, scope)
         == Sum(Others(l, flag), scope) + Times(|Covered(BookOf(l, {flag}), scope)|, AttackValue(|Captures(l, flag)|))
  {
    BookBefore(l, flag);
    SumUnion(Others(l, flag), BookOf(l, {flag}), scope);
    BookOfOne(l, flag);
    SumOfEqual(BookOf(l, {flag}), AttackValue(|Captures(l, flag)|), scope);
  }

  lemma AttackAfter(l: Ledger, s: Submission, scope: Scope)
    requires New(l, s)
    ensures Attack(Accept(l, s), scope)
         == Sum(Others(l, s.flag), scope) + Sum(Repriced(l, s), scope) + Share(AttackPosting(Accept(l, s), s), scope)
  {
    var others, repriced := Others(l, s.flag), Repriced(l, s);
    BookAfter(l, s);
    SumUnion(others, repriced, scope);
    SumAdds(others + repriced, SubmissionKey(s.flag, s.team), AttackPosting(Accept(l, s), s), scope);
  }

  lemma AttackShift(l: Ledger, s: Submission, scope: Scope, c: nat, n: nat)
    requires New(l, s) && c == |Captures(l, s.flag)| && n == |Covered(BookOf(l, {s.flag}), scope)|
    ensures Attack(Accept(l, s), scope) - Attack(l, scope)
         == Share(AttackPosting(Accept(l, s), s), scope) + Times(n, AttackValue(c + 1)) - Times(n, AttackValue(c))
  {
    AttackBefore(l, s.flag, scope);
    AttackAfter(l, s, scope);
    RepricedSum(l, s, scope);
  }

  predicate Hits(scope: Scope, team: int, challenge: int) { Covers(scope, Posting(team, challenge, 0.0)) }

  // A team has captured the flag at most once, so at most one posting is repriced for it.
  lemma CoveredByTeam(l: Ledger, flag: string, scope: Scope)
    requires Filed(l) && !scope.Everyone?
    ensures |Covered(BookOf(l, {flag}), scope)|
         == if CapturedBy(l, flag, scope.team) && Hits(scope, scope.team, ChallengeOf(l, flag)) then 1 else 0
  {
    var key, covered := SubmissionKey(flag, scope.team), Covered(BookOf(l, {flag}), scope);
    forall k | k in covered ensures k == key {
    }
    if CapturedBy(l, flag, scope.team) && Hits(scope, scope.team, ChallengeOf(l, flag)) {
      SubmissionKeyInjective(l.accepted[key].flag, l.accepted[key].team, flag, scope.team);
      assert covered == {key};
    } else {
      assert covered == {};
    }
  }

  // What the c earlier capturers of a flag each lose when it is captured once more.
  function Dilution(c: nat): real
    requires c > 0
  {
    1.0 / (c * (c + 1)) as real
  }

  lemma ValueStep(c: nat)
    requires c > 0
    ensures AttackValue(c) - AttackValue(c + 1) == Dilution(c)
  {
    var r := c as real;
    assert (c * (c + 1)) as real == r * (r + 1.0);
    assert 1.0 / r - 1.0 / (r + 1.0) == 1.0 / (r * (r + 1.0));
  }

  // The new submission's own posting.
  lemma NewPosting(l: Ledger, s: Submission, scope: Scope)
    requires New(l, s) && !scope.Everyone?
    ensures Share(AttackPosting(Accept(l, s), s), scope)
         == if scope.team == s.team && Hits(scope, s.team, ChallengeOf(l, s.flag))
            then AttackValue(|Captures(l, s.flag)| + 1) else 0.0
  {
    OneMoreCapture(l, s);
  }

  lemma TimesOnce(amount: real)
    ensures Times(1, amount) == amount && Times(0, amount) == 0.0
  {
    assert Times(0, amount) == 0.0;
  }

  // A team's own attack points on the flag's service, and in all, before prices are named.
  lemma AcceptMoves(l: Ledger, s: Submission, scope: Scope, c: nat)
    requires Filed(l) && New(l, s) && !scope.Everyone? && c == |Captures(l, s.flag)|
    ensures Attack(Accept(l, s), scope) - Attack(l, scope)
         == if !Hits(scope, scope.team, ChallengeOf(l, s.flag)) then 0.0
            else if scope.team == s.team then AttackValue(c + 1)
            else if CapturedBy(l, s.flag, scope.team) then AttackValue(c + 1) - AttackValue(c)
            else 0.0
  {
    var n := |Covered(BookOf(l, {s.flag}), scope)|;
    AttackShift(l, s, scope, c, n);
    CoveredByTeam(l, s.flag, scope);
    NewPosting(l, s, scope);
    TimesOnce(AttackValue(c + 1));
    TimesOnce(AttackValue(c));
  }

  // The submitter gains 1 + 1/(c+1), each earlier capturer of the flag loses 1/(c(c+1)),
  // on the flag's own service only, and nobody else's attack points move.
  lemma AcceptMovesAttack(l: Ledger, s: Submission, scope: Scope)
    requires Filed(l) && New(l, s) && !scope.Everyone?
    ensures !Hits(scope, scope.team, ChallengeOf(l, s.flag)) ==> Attack(Accept(l, s), scope) == Attack(l, scope)
    ensures Hits(scope, scope.team, ChallengeOf(l, s.flag)) ==>
              if scope.team == s.team
              then Attack(Accept(l, s), scope) == Attack(l, scope) + 1.0 + 1.0 / (|Captures(l, s.flag)| + 1) as real
              else if CapturedBy(l, s.flag, scope.team)
              then Captures(l, s.flag) != {}
                   && Attack(Accept(l, s), scope) == Attack(l, scope) - Dilution(|Captures(l, s.flag)|)
              else Attack(Accept(l, s), scope) == Attack(l, scope)
  {
    var c := |Captures(l, s.flag)|;
    AcceptMoves(l, s, scope, c);
    if CapturedBy(l, s.flag, scope.team) {
      assert Captures(l, s.flag) != {};
      ValueStep(c);
    }
  }

  lemma AcceptedCounts(l: Ledger, s: Submission)
    requires New(l, s)
    ensures |Accept(l, s).accepted| == |l.accepted| + 1
  {
    assert Accept(l, s).accepted.Keys == l.accepted.Keys + {SubmissionKey(s.flag, s.team)};
  }

  lemma CapturedAfter(l: Ledger, s: Submission)
    requires New(l, s)
    ensures CapturedFlags(Accept(l, s)) == CapturedFlags(l) + {s.flag}
  {
    forall f ensures f in CapturedFlags(Accept(l, s)) <==> f in CapturedFlags(l) || f == s.flag {
      FirstCaptureIff(l, f);
      FirstCaptureIff(Accept(l, s), f);
      CapturesAfter(l, s, f);
    }
  }

  lemma FirstCaptureIff(l: Ledger, flag: string)
    ensures flag in CapturedFlags(l) <==> Captures(l, flag) != {}
  {
    if Captures(l, flag) != {} {
      var k :| k in Captures(l, flag);
      assert flag in CapturedFlags(l);
    }
    if flag in CapturedFlags(l) {
      var k :| k in l.accepted && l.accepted[k].flag == flag;
      assert k in Captures(l, flag);
    }
  }

  lemma AcceptRaisesTotalAttack(l: Ledger, s: Submission)
    requires New(l, s)
    ensures Attack(Accept(l, s), Everyone) == Attack(l, Everyone) + if Captures(l, s.flag) == {} then 2.0 else 1.0
  {
    TotalAttack(l);
    TotalAttack(Accept(l, s));
    AcceptedCounts(l, s);
    CapturedAfter(l, s);
    FirstCaptureIff(l, s.flag);
    if s.flag in CapturedFlags(l) {
      assert CapturedFlags(l) + {s.flag} == CapturedFlags(l);
    }
  }

  lemma OtherCapturesStay(l: Ledger, s: Submission, flag: string)
    requires Filed(l) && New(l, s) && flag in l.flags && flag != s.flag
    ensures Captures(Accept(l, s), l.flags[flag].flag) == Captures(l, l.flags[flag].flag)
  {
    CapturesAfter(l, s, flag);
  }

  lemma OtherPenaltiesStay(l: Ledger, curves: Curves, s: Submission)
    requires Filed(l) && New(l, s)
    ensures DefenseBook(Accept(l, s), curves) - {s.flag} == DefenseBook(l, curves) - {s.flag}
  {
    var before, after := DefenseBook(l, curves) - {s.flag}, DefenseBook(Accept(l, s), curves) - {s.flag};
    forall f | f in l.flags && f != s.flag
      ensures f in before <==> f in after
      ensures f in before ==> before[f] == after[f]
    {
      OtherCapturesStay(l, s, f);
    }
    assert before.Keys == after.Keys;
  }

  // One flag's part in the defence book, whether or not it has been captured.
  lemma PenaltyOf(l: Ledger, curves: Curves, flag: string, scope: Scope, c: nat)
    requires Filed(l) && flag in l.flags && c == |Captures(l, flag)|
    ensures Defense(l, curves, scope)
         == Sum(DefenseBook(l, curves) - {flag}, scope)
          - if Hits(scope, l.flags[flag].owner, l.flags[flag].challenge) then DefensePenalty(curves, c) else 0.0
  {
    var book := DefenseBook(l, curves);
    if flag in book {
      SumTakes(book, flag, scope);
    } else {
      assert book - {flag} == book;
    }
  }

  // The owner's defence moves by p(c) - p(c+1), on that service; nobody else's moves.
  lemma AcceptMovesDefense(l: Ledger, curves: Curves, s: Submission, scope: Scope)
    requires Filed(l) && New(l, s) && s.flag in l.flags
    ensures var c, f := |Captures(l, s.flag)|, l.flags[s.flag];
            var move := (if c == 0 then 0.0 else (curves.power)(c)) - (curves.power)(c + 1);
            Defense(Accept(l, s), curves, scope)
              == Defense(l, curves, scope) + if Hits(scope, f.owner, f.challenge) then move else 0.0
  {
    var c, l' := |Captures(l, s.flag)|, Accept(l, s);
    FiledAfter(l, s);
    OneMoreCapture(l, s);
    PenaltyOf(l, curves, s.flag, scope, c);
    PenaltyOf(l', curves, s.flag, scope, c + 1);
    OtherPenaltiesStay(l, curves, s);
  }

  lemma FiledAfter(l: Ledger, s: Submission)
    requires Filed(l)
    ensures Filed(Accept(l, s))
  {
  }

  lemma AcceptKeepsSla(l: Ledger, curves: Curves, s: Submission, scope: Scope)
    ensures Sla(Accept(l, s), curves, scope) == Sla(l, curves, scope)
  {
    assert PlainSlaBook(Accept(l, s)) == PlainSlaBook(l);
  }

  // Before the first capture nobody has attack or defence points.
  lemma NothingCaptured(l: Ledger, curves: Curves, scope: Scope)
    requires l.accepted == map[]
    ensures Attack(l, scope) == 0.0 && Defense(l, curves, scope) == 0.0
  {
    assert AttackBook(l).Keys == {};
    assert forall flag :: Captures(l, flag) == {};
    assert DefenseBook(l, curves).Keys == {};
  }

  // ---------------------------------------------------------------- what SLA points are

  ghost function StatesIn(l: Ledger, status: ServiceStatus, scope: Scope): set<Key> {
    set key | key in l.states && l.states[key].status == status && Hits(scope, key.team, key.challenge)
  }

  // The states of one status, as they are posted.
  function BookFor(l: Ledger, status: ServiceStatus): map<Key, Posting> {
    map key | key in l.states && l.states[key].status == status :: SlaPosting(key, l.states[key])
  }

  function BookForRest(l: Ledger): map<Key, Posting> {
    map key | key in l.states && l.states[key].status != Ok && l.states[key].status != Recovering ::
      SlaPosting(key, l.states[key])
  }

  lemma AmountsFor(l: Ledger, status: ServiceStatus)
    ensures forall k :: k in BookFor(l, status) ==> BookFor(l, status)[k].amount == SlaValue(status)
  {
  }

  lemma CoveredFor(l: Ledger, status: ServiceStatus, scope: Scope)
    ensures Covered(BookFor(l, status), scope) == StatesIn(l, status, scope)
  {
  }

  lemma SumFor(l: Ledger, status: ServiceStatus, scope: Scope)
    ensures Sum(BookFor(l, status), scope) == Times(|StatesIn(l, status, scope)|, SlaValue(status))
  {
    AmountsFor(l, status);
    CoveredFor(l, status, scope);
    SumOfEqual(BookFor(l, status), SlaValue(status), scope);
  }

  lemma {:induction false} TimesZero(n: nat)
    ensures Times(n, 0.0) == 0.0
  {
    if n > 0 {
      TimesZero(n - 1);
    }
  }

  lemma SumForRest(l: Ledger, scope: Scope)
    ensures Sum(BookForRest(l), scope) == 0.0
  {
    SumOfEqual(BookForRest(l), 0.0, scope);
    TimesZero(|Covered(BookForRest(l), scope)|);
  }

  lemma SlaBookSplits(l: Ledger)
    ensures PlainSlaBook(l) == BookFor(l, Ok) + BookFor(l, Recovering) + BookForRest(l)
    ensures BookFor(l, Ok).Keys !! BookFor(l, Recovering).Keys
    ensures (BookFor(l, Ok) + BookFor(l, Recovering)).Keys !! BookForRest(l).Keys
  {
  }

  lemma PlainSla(l: Ledger, scope: Scope)
    ensures Sum(PlainSlaBook(l), scope)
         == Times(|StatesIn(l, Ok, scope)|, 1.0) + Times(|StatesIn(l, Recovering, scope)|, 0.5)
  {
    SlaBookSplits(l);
    SumFor(l, Ok, scope);
    SumFor(l, Recovering, scope);
    SumForRest(l, scope);
    SumUnion(BookFor(l, Ok), BookFor(l, Recovering), scope);
    SumUnion(BookFor(l, Ok) + BookFor(l, Recovering), BookForRest(l), scope);
  }

  lemma PlainSlaCounts(l: Ledger, scope: Scope)
    ensures Sum(PlainSlaBook(l), scope)
         == |StatesIn(l, Ok, scope)| as real + |StatesIn(l, Recovering, scope)| as real * 0.5
  {
    PlainSla(l, scope);
    WholeAndHalf(|StatesIn(l, Ok, scope)|, |StatesIn(l, Recovering, scope)|);
  }

  lemma WholeAndHalf(whole: nat, half: nat)
    ensures Times(whole, 1.0) + Times(half, 0.5) == whole as real + half as real * 0.5
  {
    TimesIsProduct(whole, 1.0);
    TimesIsProduct(half, 0.5);
  }

  lemma ScaledPoints(l: Ledger, curves: Curves, scope: Scope, points: real)
    requires |l.teams| > 0 && points == Sum(PlainSlaBook(l), scope)
    ensures Sla(l, curves, scope) == points * (curves.root)(|l.teams|)
  {
    SlaIsScaledSum(l, curves, scope);
    Multiplies(SlaFactor(curves, |l.teams|), points);
  }

  lemma Multiplies(factor: real, points: real)
    ensures By(factor)(points) == points * factor
  {
  }

  // One point for each tick state that is ok, half a point for each that is recovering, none for any other,
  // all times the root of the number of teams.
  lemma SlaCounts(l: Ledger, curves: Curves, scope: Scope) returns (points: real)
    requires |l.teams| > 0
    ensures points == |StatesIn(l, Ok, scope)| as real + |StatesIn(l, Recovering, scope)| as real * 0.5
    ensures Sla(l, curves, scope) == points * (curves.root)(|l.teams|)
  {
    PlainSlaCounts(l, scope);
    points := Sum(PlainSlaBook(l), scope);
    ScaledPoints(l, curves, scope, points);
  }
}
