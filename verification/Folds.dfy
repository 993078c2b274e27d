/** Two folds over stored rows (persistence/repository.py): the one-pass drawdown and the
    reconstructed opening price. */
module Folds {
  import opened Common
  import opened Schemas

  // -------------------------------------------------------------------------- drawdown

  /** The baseline, then the snapshots in order of observation. */
  function History(baseline: real, equities: seq<real>): seq<real> { [baseline] + equities }

  /** No earlier value exceeds a later one by more than this, and one does by exactly this. */
  ghost predicate IsMaximumDrawdown(d: real, h: seq<real>) {
    && (forall i, j :: 0 <= i <= j < |h| ==> h[i] - h[j] <= d)
    && (exists i, j :: 0 <= i <= j < |h| && h[i] - h[j] == d)
  }

  ghost predicate IsPeak(p: real, h: seq<real>) {
    (forall i :: 0 <= i < |h| ==> h[i] <= p) && p in h
  }

  lemma PeakStep(h: seq<real>, peak: real, x: real)
    requires IsPeak(peak, h)
    ensures IsPeak(MaxReal(peak, x), h + [x])
  {
    var more := h + [x];
    assert more[|h|] == x;
    assert forall i :: 0 <= i < |h| ==> more[i] == h[i];
  }

  /** The later value of a new worst pair is the last one, and the earlier is the peak. */
  lemma DrawdownStep(h: seq<real>, peak: real, d: real, x: real)
    requires IsPeak(peak, h) && IsMaximumDrawdown(d, h)
    ensures IsMaximumDrawdown(MaxReal(d, MaxReal(peak, x) - x), h + [x])
  {
    var more := h + [x];
    assert more[|h|] == x;
    assert forall i :: 0 <= i < |h| ==> more[i] == h[i];
    var i, j :| 0 <= i <= j < |h| && h[i] - h[j] == d;
    assert more[i] - more[j] == d && h[0] - h[0] == 0.0;
    var k :| 0 <= k < |h| && h[k] == peak;
    assert more[k] - more[|h|] == peak - x && more[|h|] - more[|h|] == 0.0;
  }

  lemma BaselineAlone(baseline: real)
    ensures IsPeak(baseline, [baseline]) && IsMaximumDrawdown(0.0, [baseline])
  {
    var h := [baseline];
    assert h[0] - h[0] == 0.0;
  }

  /** One pass, keeping the peak so far. */
  method MaximumDrawdown(baseline: real, equities: seq<real>) returns (peak: real, drawdown: real)
    ensures IsPeak(peak, History(baseline, equities))
    ensures IsMaximumDrawdown(drawdown, History(baseline, equities))
  {
    hide IsPeak, IsMaximumDrawdown;
    peak, drawdown := baseline, 0.0;
    ghost var h := History(baseline, equities);
    assert h[..1] == [baseline];
    BaselineAlone(baseline);
    for k := 0 to |equities|
      invariant IsPeak(peak, h[..k + 1]) && IsMaximumDrawdown(drawdown, h[..k + 1])
    {
      assert h[..k + 2] == h[..k + 1] + [equities[k]];
      PeakStep(h[..k + 1], peak, equities[k]);
      DrawdownStep(h[..k + 1], peak, drawdown, equities[k]);
      peak := MaxReal(peak, equities[k]);
      drawdown := MaxReal(drawdown, peak - equities[k]);
    }
    assert h[..|equities| + 1] == h;
  }

  // ----------------------------------------------------------------- opening fill price

  datatype Fill = Fill(symbol: Symbol, quantity: int, price: real) {
    function Size(): nat { if quantity >= 0 then quantity else -quantity }

    function Cash(): real { price * Size() as real }
  }

  /** Contracts filled of one symbol, whatever their sign. */
  function FilledSize(fills: seq<Fill>, symbol: Symbol): nat {
    if fills == [] then 0
    else FilledSize(fills[1..], symbol) + if fills[0].symbol == symbol then fills[0].Size() else 0
  }

  function FilledCash(fills: seq<Fill>, symbol: Symbol): real {
    if fills == [] then 0.0
    else FilledCash(fills[1..], symbol) + if fills[0].symbol == symbol then fills[0].Cash() else 0.0
  }

  /** Every leg of the order is filled in full. */
  predicate FullyFilled(fills: seq<Fill>, legs: seq<Leg>, quantity: int) {
    forall l <- legs :: FilledSize(fills, l.symbol) == quantity * l.ratio
  }

  /** Paid for the long legs less received for the short ones. */
  function NetCash(fills: seq<Fill>, legs: seq<Leg>): real {
    if legs == [] then 0.0
    else
      var l := legs[|legs| - 1];
      NetCash(fills, legs[..|legs| - 1])
      + if l.side.Buy? then FilledCash(fills, l.symbol) else -FilledCash(fills, l.symbol)
  }

  function FilledPrice(fills: seq<Fill>, legs: seq<Leg>, quantity: int): Option<real> {
    if fills == [] || quantity < 1 || !FullyFilled(fills, legs, quantity) then None
    else Some(AbsReal(NetCash(fills, legs) / quantity as real))
  }

  method FilledStructurePrice(fills: seq<Fill>, legs: seq<Leg>, quantity: int) returns (price: Option<real>)
    ensures price == FilledPrice(fills, legs, quantity)
  {
    if fills == [] || quantity < 1 {
      return None;
    }
    var total := 0.0;
    for i := 0 to |legs|
      invariant forall l <- legs[..i] :: FilledSize(fills, l.symbol) == quantity * l.ratio
      invariant total == NetCash(fills, legs[..i])
    {
      assert legs[..i + 1] == legs[..i] + [legs[i]];
      assert legs[..i + 1][..i] == legs[..i];
      var l := legs[i];
      if FilledSize(fills, l.symbol) != quantity * l.ratio {
        assert l in legs;
        return None;
      }
      var cash := FilledCash(fills, l.symbol);
      total := total + if l.side.Buy? then cash else -cash;
    }
    assert legs[..|legs|] == legs;
    return Some(AbsReal(total / quantity as real));
  }

  lemma {:induction false} FoldsSplit(a: seq<Fill>, b: seq<Fill>, symbol: Symbol)
    ensures FilledSize(a + b, symbol) == FilledSize(a, symbol) + FilledSize(b, symbol)
    ensures FilledCash(a + b, symbol) == FilledCash(a, symbol) + FilledCash(b, symbol)
  {
    if a == [] {
      assert a + b == b;
    } else {
      assert (a + b)[1..] == a[1..] + b;
      FoldsSplit(a[1..], b, symbol);
    }
  }

  /** The same contracts and the same cash of every symbol. */
  ghost predicate SameFills(a: seq<Fill>, b: seq<Fill>) {
    (a == [] <==> b == [])
    && forall s :: FilledSize(a, s) == FilledSize(b, s) && FilledCash(a, s) == FilledCash(b, s)
  }

  lemma {:induction false} SameFillsSamePrice(a: seq<Fill>, b: seq<Fill>, legs: seq<Leg>, quantity: int)
    requires SameFills(a, b)
    ensures NetCash(a, legs) == NetCash(b, legs)
    ensures FilledPrice(a, legs, quantity) == FilledPrice(b, legs, quantity)
  {
    if legs != [] {
      SameFillsSamePrice(a, b, legs[..|legs| - 1], quantity);
    }
  }

  /** Taking one fill out takes out its contracts and its cash. */
  lemma FoldsWithout(b: seq<Fill>, i: nat, symbol: Symbol)
    requires i < |b|
    ensures FilledSize(b, symbol) == FilledSize(b[..i] + b[i + 1..], symbol) + FilledSize([b[i]], symbol)
    ensures FilledCash(b, symbol) == FilledCash(b[..i] + b[i + 1..], symbol) + FilledCash([b[i]], symbol)
  {
    hide FilledSize, FilledCash;
    assert b == b[..i] + ([b[i]] + b[i + 1..]);
    FoldsSplit(b[..i], b[i + 1..], symbol);
    FoldsSplit(b[..i], [b[i]] + b[i + 1..], symbol);
    FoldsSplit([b[i]], b[i + 1..], symbol);
  }

  lemma {:induction false} PermutedFolds(a: seq<Fill>, b: seq<Fill>, symbol: Symbol)
    requires multiset(a) == multiset(b)
    ensures FilledSize(a, symbol) == FilledSize(b, symbol) && FilledCash(a, symbol) == FilledCash(b, symbol)
    decreases |a|
  {
    hide FilledSize, FilledCash;
    SameSize(a, b);
    if a != [] {
      var n := |a| - 1;
      var i := MatchLast(a, b);
      PermutedFolds(a[..n], b[..i] + b[i + 1..], symbol);
      assert a[..n] + a[n + 1..] == a[..n];
      FoldsWithout(a, n, symbol);
      FoldsWithout(b, i, symbol);
    }
  }

  /** The reconstructed price does not depend on the order of the fills. */
  lemma PriceIgnoresOrder(a: seq<Fill>, b: seq<Fill>, legs: seq<Leg>, quantity: int)
    requires multiset(a) == multiset(b)
    ensures FilledPrice(a, legs, quantity) == FilledPrice(b, legs, quantity)
  {
    assert |a| == |multiset(a)| == |multiset(b)| == |b|;
    forall s: Symbol ensures FilledSize(a, s) == FilledSize(b, s) && FilledCash(a, s) == FilledCash(b, s) {
      PermutedFolds(a, b, s);
    }
    SameFillsSamePrice(a, b, legs, quantity);
  }

  /** Nor on how the broker splits a fill into parts at the same price. */
  lemma PriceIgnoresSplits(
    before: seq<Fill>, whole: Fill, part: Fill, rest: Fill, after: seq<Fill>, legs: seq<Leg>, quantity: int)
    requires part.symbol == rest.symbol == whole.symbol && part.price == rest.price == whole.price
    requires part.Size() + rest.Size() == whole.Size()
    ensures FilledPrice(before + [whole] + after, legs, quantity)
      == FilledPrice(before + [part, rest] + after, legs, quantity)
  {
    var a, b := before + [whole] + after, before + [part, rest] + after;
    forall s: Symbol ensures FilledSize(a, s) == FilledSize(b, s) && FilledCash(a, s) == FilledCash(b, s) {
      FoldsSplit(before + [whole], after, s);
      FoldsSplit(before, [whole], s);
      FoldsSplit(before + [part, rest], after, s);
      FoldsSplit(before, [part, rest], s);
      SplitFill(whole, part, rest, s);
    }
    SameFillsSamePrice(a, b, legs, quantity);
  }

  lemma SplitFill(whole: Fill, part: Fill, rest: Fill, symbol: Symbol)
    requires part.symbol == rest.symbol == whole.symbol && part.price == rest.price == whole.price
    requires part.Size() + rest.Size() == whole.Size()
    ensures FilledSize([whole], symbol) == FilledSize([part, rest], symbol)
    ensures FilledCash([whole], symbol) == FilledCash([part, rest], symbol)
  {
    assert [part, rest][1..] == [rest] && [rest][1..] == [] && [whole][1..] == [];
    assert whole.Cash() == part.Cash() + rest.Cash() by {
      assert whole.Size() as real == part.Size() as real + rest.Size() as real;
    }
  }
}
