/** Aggregates over a group of objects, over the reals: the loop, and what its three accumulators mean. */
module Aggregate {
  import opened Options

  datatype Op = MIN | MAX | COUNT | MBE | AVG | MEAN | SUM | STD | VAR

  /** A member of the group; an object without the property has no value. */
  datatype Member = Member(inSvc: int, outSvc: int, value: Option<real>)

  datatype Acc = Acc(numerator: real, denominator: real, secondary: real)

  /** A standard deviation is given by what is under the root; a division by zero is no number. */
  datatype Result = Value(x: real) | Root(radicand: real, scale: real) | NotANumber

  function Abs(x: real): real { if x < 0.0 then -x else x }

  // ---------------------------------------------------------------------------
  // The values that count
  // ---------------------------------------------------------------------------

  predicate Counted(m: Member, clock: int) { m.inSvc < clock < m.outSvc && m.value.Some? }

  function ValueOf(m: Member, abs: bool): real
    requires m.value.Some?
  {
    if abs then Abs(m.value.value) else m.value.value
  }

  function Values(ms: seq<Member>, clock: int, abs: bool): seq<real>
  {
    if ms == [] then []
    else
      var m := ms[|ms| - 1];
      Values(ms[..|ms| - 1], clock, abs) + if Counted(m, clock) then [ValueOf(m, abs)] else []
  }

  /** One more member adds its value, if it is in service strictly between its two dates and has one; any other
      changes nothing, wherever it stands. */
  lemma {:induction false} MemberAdds(a: seq<Member>, m: Member, b: seq<Member>, clock: int)
    ensures Values(a + [m] + b, clock, false)
            == Values(a, clock, false) + Values([m], clock, false) + Values(b, clock, false)
    ensures Values([m], clock, false) ==
            if m.inSvc < clock && clock < m.outSvc && m.value != None then [m.value.value] else []
    decreases |b|
  {
    assert [m][..0] == [];
    if b == [] {
      assert a + [m] + b == a + [m];
      LastAdds(a, m, clock);
    } else {
      var n := |b| - 1;
      MemberAdds(a, m, b[..n], clock);
      assert a + [m] + b == (a + [m] + b[..n]) + [b[n]] && b == b[..n] + [b[n]];
      LastAdds(a + [m] + b[..n], b[n], clock);
      LastAdds(b[..n], b[n], clock);
    }
  }

  lemma LastAdds(a: seq<Member>, m: Member, clock: int)
    ensures Values(a + [m], clock, false) == Values(a, clock, false) + Values([m], clock, false)
  {
    assert [m][..0] == [] && (a + [m])[..|a|] == a;
  }

  /** The same members, the second time with values that are not negative, some of which had the other sign. */
  ghost predicate SignsTaken(ms: seq<Member>, ns: seq<Member>)
  {
    |ms| == |ns| && forall k :: 0 <= k < |ms| ==> SignTaken(ms[k], ns[k])
  }

  ghost predicate SignTaken(m: Member, n: Member)
  {
    && m.inSvc == n.inSvc && m.outSvc == n.outSvc && (m.value.Some? <==> n.value.Some?)
    && (n.value.Some? ==> 0.0 <= n.value.value && (m.value.value == n.value.value || m.value.value == -n.value.value))
  }

  /** Asking for absolute values is taking the signs away beforehand. */
  lemma {:induction false} AbsoluteMeans(ms: seq<Member>, ns: seq<Member>, clock: int)
    requires SignsTaken(ms, ns)
    ensures Values(ms, clock, true) == Values(ns, clock, false)
    ensures forall x :: x in Values(ms, clock, true) ==> 0.0 <= x
    decreases |ms|
  {
    if ms != [] {
      var n := |ms| - 1;
      assert SignTaken(ms[n], ns[n]);
      AbsoluteMeans(ms[..n], ns[..n], clock);
    }
  }

  /** So a group and the same group with some signs changed have the same aggregates of absolute values. */
  lemma SignsDoNotMatter(op: Op, ms: seq<Member>, ns: seq<Member>, clock: int, scale: real, r: Result)
    requires SignsTaken(ms, ns)
    ensures IsAggregate(op, Values(ms, clock, true), scale, r) <==> IsAggregate(op, Values(ns, clock, false), scale, r)
  {
    AbsoluteMeans(ms, ns, clock);
  }

  // ---------------------------------------------------------------------------
  // Statistics
  // ---------------------------------------------------------------------------

  function Sum(xs: seq<real>): real
  {
    if xs == [] then 0.0 else Sum(xs[..|xs| - 1]) + xs[|xs| - 1]
  }

  /** The sum of squared distances from c. */
  function Squares(xs: seq<real>, c: real): real
  {
    if xs == [] then 0.0
    else Squares(xs[..|xs| - 1], c) + (xs[|xs| - 1] - c) * (xs[|xs| - 1] - c)
  }

  function Mean(xs: seq<real>): real
    requires xs != []
  {
    Sum(xs) / |xs| as real
  }

  ghost predicate Least(r: real, xs: seq<real>)
  {
    r in xs && forall k :: 0 <= k < |xs| ==> r <= xs[k]
  }

  ghost predicate Greatest(r: real, xs: seq<real>)
  {
    r in xs && forall k :: 0 <= k < |xs| ==> xs[k] <= r
  }

  // ---------------------------------------------------------------------------
  // The loop
  // ---------------------------------------------------------------------------

  function Update(op: Op, a: Acc, value: real): Acc
    requires op in {MBE, STD, VAR} ==> a.denominator + 1.0 != 0.0
  {
    match op
    case MIN => Acc(if value < a.numerator || a.denominator == 0.0 then value else a.numerator, 1.0, a.secondary)
    case MAX => Acc(if value > a.numerator || a.denominator == 0.0 then value else a.numerator, 1.0, a.secondary)
    case COUNT => Acc(a.numerator + 1.0, 1.0, a.secondary)
    case MBE =>
      Acc(a.numerator + value, a.denominator + 1.0, a.secondary + (value - a.secondary) / (a.denominator + 1.0))
    case AVG => Acc(a.numerator + value, a.denominator + 1.0, a.secondary)
    case MEAN => Acc(a.numerator + value, a.denominator + 1.0, a.secondary)
    case SUM => Acc(a.numerator + value, 1.0, a.secondary)
    case STD => OnLine(a, value)
    case VAR => OnLine(a, value)
  }

  function OnLine(a: Acc, value: real): Acc
    requires a.denominator + 1.0 != 0.0
  {
    var n := a.denominator + 1.0;
    var delta := value - a.secondary;
    var mean := a.secondary + delta / n;
    Acc(a.numerator + delta * (value - mean), n, mean)
  }

  /** What the accumulators mean after some values. */
  ghost predicate Means(op: Op, a: Acc, xs: seq<real>)
  {
    match op
    case MIN => a.denominator == (if xs == [] then 0.0 else 1.0) && (xs != [] ==> Least(a.numerator, xs))
    case MAX => a.denominator == (if xs == [] then 0.0 else 1.0) && (xs != [] ==> Greatest(a.numerator, xs))
    case COUNT => a.denominator == (if xs == [] then 0.0 else 1.0) && a.numerator == |xs| as real
    case SUM => a.denominator == (if xs == [] then 0.0 else 1.0) && a.numerator == Sum(xs)
    case MBE =>
      a.denominator == |xs| as real && a.numerator == Sum(xs) && a.secondary == if xs == [] then 0.0 else Mean(xs)
    case AVG => a.denominator == |xs| as real && a.numerator == Sum(xs)
    case MEAN => a.denominator == |xs| as real && a.numerator == Sum(xs)
    case STD => IsOnLine(a, xs)
    case VAR => IsOnLine(a, xs)
  }

  /** The mean so far and the squared distances from it. */
  ghost predicate IsOnLine(a: Acc, xs: seq<real>)
  {
    && a.denominator == |xs| as real
    && (xs == [] ==> a.numerator == 0.0 && a.secondary == 0.0)
    && (xs != [] ==> a.secondary == Mean(xs) && a.numerator == Squares(xs, Mean(xs)))
  }

  lemma SumSnoc(xs: seq<real>, x: real)
    ensures Sum(xs + [x]) == Sum(xs) + x && |xs + [x]| as real == |xs| as real + 1.0
  {
    assert (xs + [x])[..|xs|] == xs;
  }

  /** The mean moves by the distance over the new count. */
  lemma MeanMoves(xs: seq<real>, x: real, before: real)
    requires xs != [] ==> before == Mean(xs)
    requires xs == [] ==> before == 0.0
    ensures Mean(xs + [x]) == before + (x - before) / (|xs| as real + 1.0)
  {
    SumSnoc(xs, x);
    var n := |xs| as real;
    assert Sum(xs) == n * before;
    var d := (x - before) / (n + 1.0);
    assert d * (n + 1.0) == x - before;
    assert (before + d) * (n + 1.0) == before * (n + 1.0) + d * (n + 1.0);
    assert before * (n + 1.0) == n * before + before;
    Quotient(Sum(xs) + x, n + 1.0, before + d);
  }

  lemma Quotient(a: real, b: real, q: real)
    requires b != 0.0 && q * b == a
    ensures a / b == q
  {
  }

  /** Squared distances from c, multiplied out. */
  lemma {:induction false} SquaresExpand(xs: seq<real>, c: real)
    ensures Squares(xs, c) == Squares(xs, 0.0) - 2.0 * (c * Sum(xs)) + |xs| as real * (c * c)
  {
    if xs != [] {
      var n, x := |xs| - 1, xs[|xs| - 1];
      SquaresExpand(xs[..n], c);
      ExpandOne(Squares(xs[..n], c), Squares(xs[..n], 0.0), Sum(xs[..n]), n as real, x, c,
                Squares(xs, c), Squares(xs, 0.0), Sum(xs), |xs| as real);
    }
  }

  lemma ExpandOne(a: real, q: real, s: real, n: real, x: real, c: real, a': real, q': real, s': real, n': real)
    requires a == q - 2.0 * (c * s) + n * (c * c)
    requires a' == a + (x - c) * (x - c) && q' == q + (x - 0.0) * (x - 0.0) && s' == s + x && n' == n + 1.0
    ensures a' == q' - 2.0 * (c * s') + n' * (c * c)
  {
    assert (x - c) * (x - c) == x * x - 2.0 * (c * x) + c * c;
    assert c * s' == c * s + c * x;
    assert n' * (c * c) == n * (c * c) + c * c;
    assert (x - 0.0) * (x - 0.0) == x * x;
  }

  /** The identity behind the on-line algorithm: the squares around the new mean. */
  lemma Compensated(n: real, q: real, mu: real, x: real, nu: real)
    requires (n + 1.0) * nu == n * mu + x
    ensures q - n * (mu * mu) + (x - mu) * (x - nu) == q + x * x - (n + 1.0) * (nu * nu)
  {
    assert (n + 1.0) * (nu * nu) == ((n + 1.0) * nu) * nu;
    assert (n * mu + x) * nu == n * (mu * nu) + x * nu;
    assert (x - mu) * (x - nu) == x * x - x * nu - mu * x + mu * nu;
    assert mu * ((n + 1.0) * nu) == mu * (n * mu + x);
    assert mu * ((n + 1.0) * nu) == n * (mu * nu) + mu * nu;
    assert mu * (n * mu + x) == n * (mu * mu) + mu * x;
  }

  /** With the mean for c the linear term is twice the last one. */
  lemma SquaresAtMean(xs: seq<real>, n: real, mu: real)
    requires xs != [] && n == |xs| as real && mu == Mean(xs)
    ensures Sum(xs) == n * mu
    ensures Squares(xs, mu) == Squares(xs, 0.0) - n * (mu * mu)
  {
    SquaresExpand(xs, mu);
    AtMean(Squares(xs, mu), Squares(xs, 0.0), Sum(xs), n, mu);
  }

  lemma AtMean(a: real, q: real, s: real, n: real, mu: real)
    requires a == q - 2.0 * (mu * s) + n * (mu * mu) && n != 0.0 && mu == s / n
    ensures s == n * mu && a == q - n * (mu * mu)
  {
    assert s == n * mu;
    assert mu * s == n * (mu * mu);
  }

  lemma SquaresSnoc(xs: seq<real>, x: real, c: real)
    ensures Squares(xs + [x], c) == Squares(xs, c) + (x - c) * (x - c)
  {
    assert (xs + [x])[..|xs|] == xs;
  }

  /** The new squares, from the old ones. */
  lemma SquaresMove(xs: seq<real>, x: real, mu: real, nu: real)
    requires xs != [] && mu == Mean(xs) && nu == Mean(xs + [x])
    ensures Squares(xs + [x], nu) == Squares(xs, mu) + (x - mu) * (x - nu)
  {
    var n := |xs| as real;
    SumSnoc(xs, x);
    SquaresAtMean(xs, n, mu);
    SquaresAtMean(xs + [x], n + 1.0, nu);
    SquaresSnoc(xs, x, 0.0);
    Compensated(n, Squares(xs, 0.0), mu, x, nu);
    assert (x - 0.0) * (x - 0.0) == x * x;
  }

  lemma OnLineFirst(x: real)
    ensures OnLine(Acc(0.0, 0.0, 0.0), x) == Acc(0.0, 1.0, x)
    ensures Mean([x]) == x && Squares([x], x) == 0.0
  {
    assert [x][..0] == [] && |[x]| as real == 1.0;
    assert Sum([x]) == x && (x - x) * (x - x) == 0.0;
    Quotient(x, 1.0, x);
    assert Mean([x]) == Sum([x]) / 1.0;
  }

  lemma OnLineNext(q: real, n: real, mu: real, x: real, nu: real, d: real)
    requires n + 1.0 != 0.0 && nu == mu + (x - mu) / (n + 1.0) && d == (x - mu) * (x - nu)
    ensures OnLine(Acc(q, n, mu), x) == Acc(q + d, n + 1.0, nu)
  {
    var delta := x - mu;
    assert delta * (x - nu) == d;
  }

  lemma OnLineIs(a: Acc, xs: seq<real>, q: real, n: real, mu: real)
    requires xs != [] && a == Acc(q, n, mu) && n == |xs| as real && mu == Mean(xs) && q == Squares(xs, mu)
    ensures IsOnLine(a, xs)
  {
  }

  lemma OnLineStep(a: Acc, xs: seq<real>, x: real)
    requires IsOnLine(a, xs)
    ensures a.denominator + 1.0 != 0.0 && IsOnLine(OnLine(a, x), xs + [x])
  {
    if xs == [] {
      OnLineFirst(x);
      assert a == Acc(0.0, 0.0, 0.0) && xs + [x] == [x];
    } else {
      OnLineLater(a, xs, x, a.secondary, Squares(xs, a.secondary));
    }
  }

  lemma OnLineLater(a: Acc, xs: seq<real>, x: real, mu: real, q: real)
    requires xs != [] && mu == Mean(xs) && q == Squares(xs, mu) && a == Acc(q, |xs| as real, mu)
    ensures a.denominator + 1.0 != 0.0 && IsOnLine(OnLine(a, x), xs + [x])
  {
    var nu := Mean(xs + [x]);
    var d := Moved(xs, x, mu, nu);
    MeanMoves(xs, x, mu);
    OnLineNext(q, |xs| as real, mu, x, nu, d);
    SumSnoc(xs, x);
    OnLineIs(OnLine(a, x), xs + [x], q + d, |xs| as real + 1.0, nu);
  }

  /** How much the squares grow. */
  lemma Moved(xs: seq<real>, x: real, mu: real, nu: real) returns (d: real)
    requires xs != [] && mu == Mean(xs) && nu == Mean(xs + [x])
    ensures d == (x - mu) * (x - nu) && Squares(xs + [x], nu) == Squares(xs, mu) + d
  {
    d := (x - mu) * (x - nu);
    SquaresMove(xs, x, mu, nu);
  }

  lemma UpdateMeans(op: Op, a: Acc, xs: seq<real>, x: real)
    requires Means(op, a, xs)
    ensures op in {MBE, STD, VAR} ==> a.denominator + 1.0 != 0.0
    ensures Means(op, Update(op, a, x), xs + [x])
  {
    SumSnoc(xs, x);
    match op
    case MIN => Extreme(xs, x);
    case MAX => Extreme(xs, x);
    case COUNT =>
    case SUM =>
    case AVG =>
    case MEAN =>
    case MBE => MeanMoves(xs, x, a.secondary);
    case STD => OnLineStep(a, xs, x);
    case VAR => OnLineStep(a, xs, x);
  }

  lemma Extreme(xs: seq<real>, x: real)
    ensures forall r :: Least(r, xs) ==> Least(if x < r then x else r, xs + [x])
    ensures forall r :: Greatest(r, xs) ==> Greatest(if x > r then x else r, xs + [x])
    ensures xs == [] ==> Least(x, xs + [x]) && Greatest(x, xs + [x])
  {
  }

  /** The aggregate of some values, given by what it means: the least or greatest, how many there are,
      their sum, their mean, their population variance, all times the scale, the root of their sample
      variance. The mean bias error is zero, whatever the values. */
  ghost predicate IsAggregate(op: Op, xs: seq<real>, scale: real, r: Result)
  {
    match op
    case MIN => if xs == [] then r.NotANumber? else exists x :: Least(x, xs) && r == Value(x * scale)
    case MAX => if xs == [] then r.NotANumber? else exists x :: Greatest(x, xs) && r == Value(x * scale)
    case COUNT => r == if xs == [] then NotANumber else Value(|xs| as real * scale)
    case SUM => r == if xs == [] then NotANumber else Value(Sum(xs) * scale)
    case AVG => r == if xs == [] then NotANumber else Value(Mean(xs) * scale)
    case MEAN => r == if xs == [] then NotANumber else Value(Mean(xs) * scale)
    case MBE => r == if xs == [] then NotANumber else Value(0.0)
    case VAR => r == if xs == [] then NotANumber else Value(Squares(xs, Mean(xs)) / |xs| as real * scale)
    case STD => r == if xs == [] then Root(0.0, scale) else if |xs| == 1 then NotANumber
                     else Root(Squares(xs, Mean(xs)) / (|xs| as real - 1.0), scale)
  }

  /** The aggregate of the members in service that have a value. */
  method AggregateValue(op: Op, members: seq<Member>, clock: int, abs: bool, scale: real) returns (r: Result)
    ensures IsAggregate(op, Values(members, clock, abs), scale, r)
  {
    var a := Acc(0.0, 0.0, 0.0);
    ghost var xs := [];
    for k := 0 to |members|
      invariant xs == Values(members[..k], clock, abs) && Means(op, a, xs)
      invariant xs == [] ==> a == Acc(0.0, 0.0, 0.0)
    {
      var m := members[k];
      assert members[..k + 1][..k] == members[..k];
      if m.inSvc >= clock || m.outSvc <= clock { continue; }
      if m.value.Some? {
        var value := if abs then Abs(m.value.value) else m.value.value;
        UpdateMeans(op, a, xs, value);
        a := Update(op, a, value);
        xs := xs + [value];
      }
    }
    assert members[..|members|] == members;
    FinalMeans(op, a, xs, scale);
    r := Final(op, a, scale);
  }

  lemma FinalMeans(op: Op, a: Acc, xs: seq<real>, scale: real)
    requires Means(op, a, xs) && (xs == [] ==> a == Acc(0.0, 0.0, 0.0))
    ensures IsAggregate(op, xs, scale, Final(op, a, scale))
  {
    if xs == [] {
      Quotient(0.0, -1.0, 0.0);
    } else if op in {MIN, MAX, COUNT, SUM} {
      WholeRatio(a, scale);
    } else if op in {MBE, AVG, MEAN} {
      MeanRatio(a, xs);
    } else {
      FinalSquares(op, a, xs, scale);
    }
  }

  lemma MeanRatio(a: Acc, xs: seq<real>)
    requires xs != [] && a.numerator == Sum(xs) && a.denominator == |xs| as real
    ensures a.numerator / a.denominator == Mean(xs)
  {
  }

  lemma FinalSquares(op: Op, a: Acc, xs: seq<real>, scale: real)
    requires xs != [] && op in {VAR, STD} && IsOnLine(a, xs)
    ensures IsAggregate(op, xs, scale, Final(op, a, scale))
  {
    assert a.denominator == 1.0 <==> |xs| == 1;
    SquaresRatio(op, a, Squares(xs, Mean(xs)), |xs| as real, scale);
  }

  /** The last step of a variance, from the squares q of n values. */
  lemma SquaresRatio(op: Op, a: Acc, q: real, n: real, scale: real)
    requires op in {VAR, STD} && a.numerator == q && a.denominator == n && n != 0.0
    ensures op.VAR? ==> Final(op, a, scale) == Value(q / n * scale)
    ensures op.STD? ==> Final(op, a, scale) == if n == 1.0 then NotANumber else Root(q / (n - 1.0), scale)
  {
  }

  lemma WholeRatio(a: Acc, scale: real)
    requires a.denominator == 1.0
    ensures Ratio(a, scale) == Value(a.numerator * scale)
  {
    Quotient(a.numerator, 1.0, a.numerator);
  }

  function Final(op: Op, a: Acc, scale: real): Result
  {
    match op
    case STD => if a.denominator == 1.0 then NotANumber else Root(a.numerator / (a.denominator - 1.0), scale)
    case MBE => if a.denominator == 0.0 then NotANumber else Value(a.numerator / a.denominator - a.secondary)
    case MIN => Ratio(a, scale)
    case MAX => Ratio(a, scale)
    case COUNT => Ratio(a, scale)
    case AVG => Ratio(a, scale)
    case MEAN => Ratio(a, scale)
    case SUM => Ratio(a, scale)
    case VAR => Ratio(a, scale)
  }

  function Ratio(a: Acc, scale: real): Result
  {
    if a.denominator == 0.0 then NotANumber else Value(a.numerator / a.denominator * scale)
  }
}
