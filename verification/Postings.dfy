/**
 Score postings: amounts credited to a (team, challenge) cell under some key. Sums over a
 book of postings do not depend on the order in which its keys are visited.
 */
module Postings {

  datatype Posting = Posting(team: int, challenge: int, amount: real)

  datatype Scope = Everyone | OfTeam(team: int) | OfCell(team: int, challenge: int)

  predicate Covers(scope: Scope, p: Posting) {
    match scope
    case Everyone => true
    case OfTeam(team) => p.team == team
    case OfCell(team, challenge) => p.team == team && p.challenge == challenge
  }

  function Share(p: Posting, scope: Scope): real { if Covers(scope, p) then p.amount else 0.0 }

  ghost function Sum<K>(book: map<K, Posting>, scope: Scope): real
    decreases |book.Keys|
  {
    if book.Keys == {} then 0.0
    else
      var k :| k in book.Keys;
      Shrinks(book, k);
      Share(book[k], scope) + Sum(book - {k}, scope)
  }

  lemma Shrinks<K>(book: map<K, Posting>, k: K)
    requires k in book
    ensures (book - {k}).Keys == book.Keys - {k} && |(book - {k}).Keys| == |book.Keys| - 1
  {
    assert (book - {k}).Keys == book.Keys - {k};
  }

  lemma RemoveBoth<K>(book: map<K, Posting>, a: K, b: K)
    ensures book - {a} - {b} == book - {b} - {a}
  {
  }

  // The key that the definition of Sum happens to take.
  lemma FirstTaken<K>(book: map<K, Posting>, scope: Scope) returns (first: K)
    requires book.Keys != {}
    ensures first in book && Sum(book, scope) == Share(book[first], scope) + Sum(book - {first}, scope)
  {
    first :| first in book.Keys && Sum(book, scope) == Share(book[first], scope) + Sum(book - {first}, scope);
  }

  // Any key may be taken first.
  lemma {:induction false} SumTakes<K>(book: map<K, Posting>, k: K, scope: Scope)
    requires k in book
    ensures Sum(book, scope) == Share(book[k], scope) + Sum(book - {k}, scope)
    decreases |book.Keys|
  {
    var first := FirstTaken(book, scope);
    if first != k {
      Shrinks(book, first);
      Shrinks(book, k);
      SumTakes(book - {first}, k, scope);
      SumTakes(book - {k}, first, scope);
      RemoveBoth(book, first, k);
    }
  }

  lemma SumAdds<K>(book: map<K, Posting>, k: K, p: Posting, scope: Scope)
    requires k !in book
    ensures Sum(book[k := p], scope) == Sum(book, scope) + Share(p, scope)
  {
    SumTakes(book[k := p], k, scope);
    assert book[k := p] - {k} == book;
  }

  lemma UnionRemoves<K>(a: map<K, Posting>, b: map<K, Posting>, k: K)
    requires a.Keys !! b.Keys && k in b
    ensures a + b - {k} == a + (b - {k}) && (a + b)[k] == b[k] && a.Keys !! (b - {k}).Keys
  {
  }

  lemma UnionTakes<K>(a: map<K, Posting>, b: map<K, Posting>, k: K, scope: Scope)
    requires a.Keys !! b.Keys && k in b
    ensures Sum(a + b, scope) == Share(b[k], scope) + Sum(a + (b - {k}), scope)
  {
    UnionRemoves(a, b, k);
    SumTakes(a + b, k, scope);
  }

  lemma {:induction false} SumUnion<K>(a: map<K, Posting>, b: map<K, Posting>, scope: Scope)
    requires a.Keys !! b.Keys
    ensures Sum(a + b, scope) == Sum(a, scope) + Sum(b, scope)
    decreases |b.Keys|
  {
    if b.Keys == {} {
      assert a + b == a;
    } else {
      var k := FirstTaken(b, scope);
      Shrinks(b, k);
      UnionTakes(a, b, k, scope);
      SumUnion(a, b - {k}, scope);
    }
  }

  // ---------------------------------------------------------------- equal amounts

  ghost function Covered<K>(book: map<K, Posting>, scope: Scope): set<K> {
    set k | k in book && Covers(scope, book[k])
  }

  lemma CoveredShrinks<K>(book: map<K, Posting>, k: K, scope: Scope)
    requires k in book
    ensures |Covered(book, scope)| == |Covered(book - {k}, scope)| + if Covers(scope, book[k]) then 1 else 0
  {
    assert Covered(book - {k}, scope) == Covered(book, scope) - {k};
  }

  // n equal amounts, as repeated addition.
  function Times(n: nat, amount: real): real { if n == 0 then 0.0 else Times(n - 1, amount) + amount }

  lemma {:induction false} TimesIsProduct(n: nat, amount: real)
    ensures Times(n, amount) == n as real * amount
  {
    if n > 0 {
      TimesIsProduct(n - 1, amount);
    }
  }

  lemma {:induction false} SumOfEqual<K>(book: map<K, Posting>, amount: real, scope: Scope)
    requires forall k :: k in book ==> book[k].amount == amount
    ensures Sum(book, scope) == Times(|Covered(book, scope)|, amount)
    decreases |book.Keys|
  {
    if book.Keys == {} {
      assert Covered(book, scope) == {};
    } else {
      var k := FirstTaken(book, scope);
      Shrinks(book, k);
      SumOfEqual(book - {k}, amount, scope);
      CoveredShrinks(book, k, scope);
    }
  }

  // ---------------------------------------------------------------- scaling

  function Scale(p: Posting, scale: real -> real): Posting { p.(amount := scale(p.amount)) }

  function Scaled<K>(book: map<K, Posting>, scale: real -> real): map<K, Posting> {
    map k | k in book :: Scale(book[k], scale)
  }

  ghost predicate AddsAt(scale: real -> real, a: real, b: real) { scale(a + b) == scale(a) + scale(b) }

  ghost predicate Linear(scale: real -> real) {
    scale(0.0) == 0.0 && forall a, b :: AddsAt(scale, a, b)
  }

  lemma ShareScales(p: Posting, scale: real -> real, scope: Scope)
    requires Linear(scale)
    ensures Share(Scale(p, scale), scope) == scale(Share(p, scope))
  {
  }

  ghost predicate ScalesTo<K>(book: map<K, Posting>, scaled: map<K, Posting>, scale: real -> real) {
    scaled.Keys == book.Keys && forall k :: k in book ==> scaled[k] == Scale(book[k], scale)
  }

  lemma LinearAdds(scale: real -> real, total: real, a: real, b: real)
    requires Linear(scale) && total == a + b
    ensures scale(total) == scale(a) + scale(b)
  {
    assert AddsAt(scale, a, b);
  }

  lemma ScaledTakes<K>(book: map<K, Posting>, scaled: map<K, Posting>, k: K, scale: real -> real, scope: Scope)
    requires Linear(scale) && ScalesTo(book, scaled, scale) && k in book
    ensures ScalesTo(book - {k}, scaled - {k}, scale) && |(book - {k}).Keys| < |book.Keys|
    ensures Sum(scaled, scope) == scale(Share(book[k], scope)) + Sum(scaled - {k}, scope)
  {
    Shrinks(book, k);
    SumTakes(scaled, k, scope);
    ShareScales(book[k], scale, scope);
  }

  lemma {:induction false} SumScales<K>(book: map<K, Posting>, scaled: map<K, Posting>, scale: real -> real,
                                        scope: Scope)
    requires Linear(scale) && ScalesTo(book, scaled, scale)
    ensures Sum(scaled, scope) == scale(Sum(book, scope))
    decreases |book.Keys|
  {
    if book.Keys != {} {
      var k := FirstTaken(book, scope);
      ScaledTakes(book, scaled, k, scale, scope);
      SumScales(book - {k}, scaled - {k}, scale, scope);
      LinearAdds(scale, Sum(book, scope), Share(book[k], scope), Sum(book - {k}, scope));
    }
  }

  function By(factor: real): real -> real { x => x * factor }

  lemma ByIsLinear(factor: real)
    ensures Linear(By(factor))
  {
    forall a, b ensures AddsAt(By(factor), a, b) {
      assert (a + b) * factor == a * factor + b * factor;
    }
  }

  lemma ScaledScales<K>(book: map<K, Posting>, scale: real -> real)
    ensures ScalesTo(book, Scaled(book, scale), scale)
  {
  }

  lemma SumOfScaled<K>(book: map<K, Posting>, factor: real, scope: Scope)
    ensures Sum(Scaled(book, By(factor)), scope) == By(factor)(Sum(book, scope))
  {
    ByIsLinear(factor);
    ScaledScales(book, By(factor));
    SumScales(book, Scaled(book, By(factor)), By(factor), scope);
  }

  // ---------------------------------------------------------------- sums of sums

  ghost function SumEach<K>(book: map<K, Posting>, scopes: seq<Scope>): real {
    if scopes == [] then 0.0 else Sum(book, scopes[0]) + SumEach(book, scopes[1..])
  }

  function ShareEach(p: Posting, scopes: seq<Scope>): real {
    if scopes == [] then 0.0 else Share(p, scopes[0]) + ShareEach(p, scopes[1..])
  }

  lemma {:induction false} SumEachTakes<K>(book: map<K, Posting>, k: K, scopes: seq<Scope>)
    requires k in book
    ensures SumEach(book, scopes) == ShareEach(book[k], scopes) + SumEach(book - {k}, scopes)
  {
    if scopes != [] {
      SumTakes(book, k, scopes[0]);
      SumEachTakes(book, k, scopes[1..]);
    }
  }

  lemma {:induction false} SumEachOfNothing<K>(book: map<K, Posting>, scopes: seq<Scope>)
    requires book.Keys == {}
    ensures SumEach(book, scopes) == 0.0
  {
    if scopes != [] {
      SumEachOfNothing(book, scopes[1..]);
    }
  }

  // If every posting is shared out among the scopes as in the whole, so is their sum.
  lemma {:induction false} SumSharedOut<K>(book: map<K, Posting>, scopes: seq<Scope>, whole: Scope)
    requires forall k :: k in book ==> ShareEach(book[k], scopes) == Share(book[k], whole)
    ensures SumEach(book, scopes) == Sum(book, whole)
    decreases |book.Keys|
  {
    if book.Keys == {} {
      SumEachOfNothing(book, scopes);
    } else {
      var k :| k in book.Keys;
      Shrinks(book, k);
      SumSharedOut(book - {k}, scopes, whole);
      SumEachTakes(book, k, scopes);
      SumTakes(book, k, whole);
    }
  }
}
