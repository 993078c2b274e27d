/** Matching signed broker inventory to multi-leg structures
    (persistence/repository.py, reconcile_broker_state and its two helpers). */
module Inventory {
  import opened Common
  import opened Schemas
  import opened Orders

  /** Signed contracts by option symbol; an absent symbol holds none. */
  type Holdings = map<Symbol, int>

  function Contracts(h: Holdings, symbol: Symbol): int { if symbol in h then h[symbol] else 0 }

  /** What one leg of a structure asks of the inventory. */
  datatype Claim = Claim(symbol: Symbol, direction: int, required: nat) {
    predicate Valid() { (direction == 1 || direction == -1) && required >= 1 }
  }

  function ClaimOf(l: Leg, quantity: nat): Claim { Claim(l.symbol, l.side.Sign(), l.ratio * quantity) }

  function ClaimsOf(legs: seq<Leg>, quantity: nat): (r: seq<Claim>)
    ensures |r| == |legs|
  {
    seq(|legs|, i requires 0 <= i < |legs| => ClaimOf(legs[i], quantity))
  }

  /** Takes what is available on the claim's side, up to what it requires. */
  function ReserveOne(h: Holdings, c: Claim): Holdings {
    var available := Contracts(h, c.symbol) * c.direction;
    if available <= 0 then h else h[c.symbol := Contracts(h, c.symbol) - c.direction * Min(available, c.required)]
  }

  function ReserveAll(h: Holdings, claims: seq<Claim>): Holdings {
    if claims == [] then h
    else
      var n := |claims| - 1;
      ReserveOne(ReserveAll(h, claims[..n]), claims[n])
  }

  /** Every claim is available in full, looked at one by one. */
  predicate Covers(h: Holdings, claims: seq<Claim>) {
    forall i :: 0 <= i < |claims| ==>
      claims[i].symbol != "" && Contracts(h, claims[i].symbol) * claims[i].direction >= claims[i].required
  }

  function DeductAll(h: Holdings, claims: seq<Claim>): Holdings {
    if claims == [] then h
    else
      var n := |claims| - 1;
      var rest := DeductAll(h, claims[..n]);
      rest[claims[n].symbol := Contracts(rest, claims[n].symbol) - claims[n].direction * claims[n].required]
  }

  lemma DeductNext(h: Holdings, claims: seq<Claim>, i: nat)
    requires i < |claims|
    ensures var rest, c := DeductAll(h, claims[..i]), claims[i];
      DeductAll(h, claims[..i + 1]) == rest[c.symbol := Contracts(rest, c.symbol) - c.direction * c.required]
  {
    assert claims[..i + 1][..i] == claims[..i];
  }

  /** The inventory dictionary a reconciliation works on. */
  class BrokerInventory {
    var held: Holdings

    constructor (positions: Holdings)
      ensures held == positions
    {
      held := positions;
    }

    method Reserve(legs: seq<Leg>, quantity: nat)
      modifies this
      ensures held == ReserveAll(old(held), ClaimsOf(legs, quantity))
    {
      ghost var claims := ClaimsOf(legs, quantity);
      for i := 0 to |legs|
        invariant held == ReserveAll(old(held), claims[..i])
      {
        assert claims[..i + 1][..i] == claims[..i];
        var direction := legs[i].side.Sign();
        var available := Contracts(held, legs[i].symbol) * direction;
        if available <= 0 {
          continue;
        }
        var required := legs[i].ratio * quantity;
        held := held[legs[i].symbol := Contracts(held, legs[i].symbol) - direction * Min(available, required)];
      }
      assert claims[..|legs|] == claims;
    }

    /** All or nothing. */
    method Consume(legs: seq<Leg>, quantity: nat) returns (complete: bool)
      modifies this
      ensures complete == Covers(old(held), ClaimsOf(legs, quantity))
      ensures held == if complete then DeductAll(old(held), ClaimsOf(legs, quantity)) else old(held)
    {
      ghost var claims := ClaimsOf(legs, quantity);
      var requirements: seq<Claim> := [];
      for i := 0 to |legs|
        invariant requirements == claims[..i]
        invariant Covers(held, requirements)
        invariant held == old(held)
      {
        var c := ClaimOf(legs[i], quantity);
        if c.symbol == "" || Contracts(held, c.symbol) * c.direction < c.required {
          assert claims[i] == c;
          return false;
        }
        requirements := requirements + [c];
      }
      assert requirements == claims;
      hide Covers, ClaimsOf, DeductAll;
      for i := 0 to |requirements|
        invariant held == DeductAll(old(held), requirements[..i])
      {
        DeductNext(old(held), requirements, i);
        var c := requirements[i];
        held := held[c.symbol := Contracts(held, c.symbol) - c.direction * c.required];
      }
      assert requirements[..|requirements|] == requirements;
      return true;
    }
  }

  // ------------------------------------------------------------- reconciliation

  /** An opening order whose structure may be in the inventory. */
  datatype Exposure = Exposure(id: ClientId, status: Status, legs: seq<Leg>, quantity: nat) {
    function Claims(): seq<Claim> { ClaimsOf(legs, quantity) }
  }

  function EstablishedClaims(rows: seq<Exposure>): seq<Claim> {
    if rows == [] then []
    else
      var n := |rows| - 1;
      EstablishedClaims(rows[..n]) + if rows[n].status.Established() then rows[n].Claims() else []
  }

  /** Pending rows in order, each promoted to filled when the remaining inventory covers it. */
  function Promote(rows: seq<Exposure>, h: Holdings): (seq<Exposure>, Holdings) {
    if rows == [] then ([], h)
    else
      var n := |rows| - 1;
      var (earlier, rest) := Promote(rows[..n], h);
      if rows[n].status.Established() || !Covers(rest, rows[n].Claims()) then (earlier + [rows[n]], rest)
      else (earlier + [rows[n].(status := Filled)], DeductAll(rest, rows[n].Claims()))
  }

  /** Reserve for established structures, then consume for pending ones. */
  function Normalize(rows: seq<Exposure>, positions: Holdings): seq<Exposure> {
    Promote(rows, ReserveAll(positions, EstablishedClaims(rows))).0
  }

  lemma {:induction false} ReserveSplits(h: Holdings, a: seq<Claim>, b: seq<Claim>)
    ensures ReserveAll(h, a + b) == ReserveAll(ReserveAll(h, a), b)
  {
    if b == [] {
      assert a + b == a;
    } else {
      var n := |b| - 1;
      assert (a + b)[..|a + b| - 1] == a + b[..n];
      ReserveSplits(h, a, b[..n]);
    }
  }
}

/** What the reconciliation conserves. */
module InventoryLaws {
  import opened Common
  import opened Schemas
  import opened Inventory

  predicate ValidClaims(claims: seq<Claim>) {
    forall i :: 0 <= i < |claims| ==> claims[i].Valid()
  }

  /** Everything claimed of one symbol on one side. */
  function Claimed(claims: seq<Claim>, symbol: Symbol, direction: int): nat {
    if claims == [] then 0
    else
      var n := |claims| - 1;
      Claimed(claims[..n], symbol, direction)
      + if claims[n].symbol == symbol && claims[n].direction == direction then claims[n].required else 0
  }

  function Side(held: int): int { if held >= 0 then 1 else -1 }

  function Magnitude(held: int): nat { if held >= 0 then held else -held }

  /** Sign times what is left of the magnitude, never below zero. */
  function Residual(held: int, claimed: nat): int { Side(held) * Max(0, Magnitude(held) - claimed) }

  /** Reserving in any order leaves, for each symbol, its sign times the magnitude less everything
      claimed on the same side, never below zero. */
  lemma {:induction false} ReserveClosedForm(h: Holdings, claims: seq<Claim>, symbol: Symbol)
    requires ValidClaims(claims)
    ensures Contracts(ReserveAll(h, claims), symbol)
      == Residual(Contracts(h, symbol), Claimed(claims, symbol, Side(Contracts(h, symbol))))
    ensures ReserveAll(h, claims).Keys == h.Keys
  {
    hide ReserveOne;
    if claims != [] {
      var n := |claims| - 1;
      ReserveClosedForm(h, claims[..n], symbol);
      ReserveClosedForm(h, claims[..n], claims[n].symbol);
      ReserveOneEffect(ReserveAll(h, claims[..n]), claims[n]);
      ResidualShrinks(Contracts(h, claims[n].symbol), Claimed(claims[..n], claims[n].symbol,
                                                             Side(Contracts(h, claims[n].symbol))), claims[n].required);
    }
  }

  /** Claiming more of what is left is claiming the sum. */
  lemma ResidualShrinks(held: int, claimed: nat, more: nat)
    ensures Residual(Residual(held, claimed), more) == Residual(held, claimed + more)
  {
  }

  lemma ReserveOneEffect(h: Holdings, c: Claim)
    requires c.Valid()
    ensures var before, after := Contracts(h, c.symbol), Contracts(ReserveOne(h, c), c.symbol);
      after == if before * c.direction <= 0 then before else Residual(before, c.required)
    ensures forall s :: s != c.symbol ==> Contracts(ReserveOne(h, c), s) == Contracts(h, s)
    ensures ReserveOne(h, c).Keys == h.Keys
  {
  }

  lemma {:induction false} ClaimedSplits(a: seq<Claim>, b: seq<Claim>, symbol: Symbol, direction: int)
    ensures Claimed(a + b, symbol, direction) == Claimed(a, symbol, direction) + Claimed(b, symbol, direction)
  {
    if b == [] {
      assert a + b == a;
    } else {
      var n := |b| - 1;
      assert (a + b)[..|a + b| - 1] == a + b[..n];
      ClaimedSplits(a, b[..n], symbol, direction);
    }
  }

  lemma {:induction false} ClaimedIgnoresOrder(a: seq<Claim>, b: seq<Claim>, symbol: Symbol, direction: int)
    requires multiset(a) == multiset(b)
    ensures Claimed(a, symbol, direction) == Claimed(b, symbol, direction)
    decreases |a|
  {
    hide Claimed;
    SameSize(a, b);
    if a != [] {
      var n := |a| - 1;
      var i := MatchLast(a, b);
      ClaimedIgnoresOrder(a[..n], b[..i] + b[i + 1..], symbol, direction);
      assert a[..n] + a[n + 1..] == a[..n];
      ClaimedWithout(a, n, symbol, direction);
      ClaimedWithout(b, i, symbol, direction);
    }
  }

  /** Taking one claim out takes out what it claims. */
  lemma ClaimedWithout(b: seq<Claim>, i: nat, symbol: Symbol, direction: int)
    requires i < |b|
    ensures Claimed(b, symbol, direction)
         == Claimed(b[..i] + b[i + 1..], symbol, direction) + Claimed([b[i]], symbol, direction)
  {
    hide Claimed;
    assert b == b[..i] + ([b[i]] + b[i + 1..]);
    ClaimedSplits(b[..i], b[i + 1..], symbol, direction);
    ClaimedSplits([b[i]], b[i + 1..], symbol, direction);
    ClaimedSplits(b[..i], [b[i]] + b[i + 1..], symbol, direction);
  }

  /** The reserve pass does not depend on the order of the established structures. */
  lemma ReserveIgnoresOrder(h: Holdings, a: seq<Claim>, b: seq<Claim>)
    requires ValidClaims(a) && ValidClaims(b) && multiset(a) == multiset(b)
    ensures ReserveAll(h, a) == ReserveAll(h, b)
  {
    hide ReserveAll, Claimed, Residual, ValidClaims, Contracts, Side;
    forall s: Symbol ensures Contracts(ReserveAll(h, a), s) == Contracts(ReserveAll(h, b), s) {
      ReserveClosedForm(h, a, s);
      ReserveClosedForm(h, b, s);
      ClaimedIgnoresOrder(a, b, s, Side(Contracts(h, s)));
    }
    ReserveClosedForm(h, a, "");
    ReserveClosedForm(h, b, "");
    SameContracts(ReserveAll(h, a), ReserveAll(h, b));
  }

  lemma SameContracts(a: Holdings, b: Holdings)
    requires a.Keys == b.Keys && forall s :: Contracts(a, s) == Contracts(b, s)
    ensures a == b
  {
    forall s | s in a ensures a[s] == b[s] {
      assert Contracts(a, s) == Contracts(b, s);
    }
  }

  /** No symbol grows, changes sign or appears. */
  ghost predicate Within(less: Holdings, more: Holdings) {
    forall s :: 0 <= Contracts(less, s) <= Contracts(more, s) || Contracts(more, s) <= Contracts(less, s) <= 0
  }

  predicate DistinctClaims(claims: seq<Claim>) {
    forall i, j :: 0 <= i < j < |claims| ==> claims[i].symbol != claims[j].symbol
  }

  lemma {:induction false} DeductClosedForm(h: Holdings, claims: seq<Claim>, symbol: Symbol)
    requires ValidClaims(claims) && Covers(h, claims)
    ensures Contracts(DeductAll(h, claims), symbol)
         == Contracts(h, symbol) - Side(Contracts(h, symbol)) * Claimed(claims, symbol, Side(Contracts(h, symbol)))
  {
    if claims != [] {
      var n := |claims| - 1;
      DeductClosedForm(h, claims[..n], symbol);
      assert Contracts(h, claims[n].symbol) * claims[n].direction >= 1;
      assert claims[n].direction == Side(Contracts(h, claims[n].symbol));
    }
  }

  /** A complete consumption stays within the inventory exactly when no symbol is claimed beyond what
      it holds. The check looks at each leg alone, so this is not implied by it. */
  lemma ConsumeStaysWithinIff(h: Holdings, claims: seq<Claim>)
    requires ValidClaims(claims) && Covers(h, claims)
    ensures Within(DeductAll(h, claims), h)
       <==> forall s :: Claimed(claims, s, Side(Contracts(h, s))) <= Magnitude(Contracts(h, s))
  {
    forall s: Symbol
      ensures Contracts(DeductAll(h, claims), s)
        == Contracts(h, s) - Side(Contracts(h, s)) * Claimed(claims, s, Side(Contracts(h, s)))
    {
      DeductClosedForm(h, claims, s);
    }
  }

  /** Two legs on one symbol pass the check together and flip a long contract to a short one. */
  lemma RepeatedLegOverclaims()
    ensures exists h: Holdings, claims ::
      ValidClaims(claims) && Covers(h, claims) && Contracts(h, "A") == 1 && Contracts(DeductAll(h, claims), "A") == -1
  {
    var h: Holdings := map["A" := 1];
    var claims := [Claim("A", 1, 1), Claim("A", 1, 1)];
    assert claims[..1][..0] == [] && claims[..1] == [Claim("A", 1, 1)];
    assert Contracts(DeductAll(h, claims[..1]), "A") == 0;
    assert Contracts(DeductAll(h, claims), "A") == -1;
  }

  /** With unique leg symbols a complete consumption takes exactly what a reservation would, so it
      never over-claims or flips a sign. */
  lemma {:induction false} ConsumeIsReserve(h: Holdings, claims: seq<Claim>)
    requires ValidClaims(claims) && DistinctClaims(claims) && Covers(h, claims)
    ensures DeductAll(h, claims) == ReserveAll(h, claims)
    ensures forall s :: (forall i :: 0 <= i < |claims| ==> claims[i].symbol != s) ==>
      Contracts(ReserveAll(h, claims), s) == Contracts(h, s)
  {
    if claims != [] {
      var n := |claims| - 1;
      ConsumeIsReserve(h, claims[..n]);
      var rest := ReserveAll(h, claims[..n]);
      assert Contracts(rest, claims[n].symbol) == Contracts(h, claims[n].symbol);
      ReserveOneEffect(rest, claims[n]);
      assert Contracts(h, claims[n].symbol) * claims[n].direction >= claims[n].required;
    }
  }

  lemma ReserveStaysWithin(h: Holdings, claims: seq<Claim>)
    requires ValidClaims(claims)
    ensures Within(ReserveAll(h, claims), h)
  {
    forall s: Symbol
      ensures 0 <= Contracts(ReserveAll(h, claims), s) <= Contracts(h, s)
        || Contracts(h, s) <= Contracts(ReserveAll(h, claims), s) <= 0
    {
      ReserveClosedForm(h, claims, s);
    }
  }

  lemma CoversWithin(less: Holdings, more: Holdings, claims: seq<Claim>)
    requires Within(less, more) && ValidClaims(claims) && Covers(less, claims)
    ensures Covers(more, claims)
  {
    forall i | 0 <= i < |claims|
      ensures claims[i].symbol != "" && Contracts(more, claims[i].symbol) * claims[i].direction >= claims[i].required
    {
      assert Contracts(less, claims[i].symbol) * claims[i].direction >= claims[i].required;
    }
  }

  // ------------------------------------------------------------ whole reconciliation

  /** Structures the risk engine lets through: unique symbols, positive sizes. */
  predicate ValidRow(r: Exposure) { ValidClaims(r.Claims()) && DistinctClaims(r.Claims()) }

  /** What the promoted rows took. */
  function PromotedClaims(rows: seq<Exposure>, h: Holdings): seq<Claim> {
    if rows == [] then []
    else
      var n := |rows| - 1;
      var rest := Promote(rows[..n], h).1;
      PromotedClaims(rows[..n], h)
      + if rows[n].status.Established() || !Covers(rest, rows[n].Claims()) then [] else rows[n].Claims()
  }

  lemma {:induction false} EstablishedClaimsValid(rows: seq<Exposure>)
    requires forall r <- rows :: ValidRow(r)
    ensures ValidClaims(EstablishedClaims(rows))
  {
    if rows != [] {
      assert rows[|rows| - 1] in rows;
      EstablishedClaimsValid(rows[..|rows| - 1]);
    }
  }

  lemma {:induction false} PromoteIsReserve(rows: seq<Exposure>, h: Holdings)
    requires forall r <- rows :: ValidRow(r)
    ensures ValidClaims(PromotedClaims(rows, h))
    ensures Promote(rows, h).1 == ReserveAll(h, PromotedClaims(rows, h))
  {
    if rows != [] {
      var n := |rows| - 1;
      assert rows[n] in rows;
      PromoteIsReserve(rows[..n], h);
      var (earlier, rest) := Promote(rows[..n], h);
      if !rows[n].status.Established() && Covers(rest, rows[n].Claims()) {
        ConsumeIsReserve(rest, rows[n].Claims());
        ReserveSplits(h, PromotedClaims(rows[..n], h), rows[n].Claims());
      } else {
        assert PromotedClaims(rows[..n], h) + [] == PromotedClaims(rows[..n], h);
      }
    }
  }

  /** The last row keeps its claims where they are, or moves them. */
  lemma LastRowClaims(rows: seq<Exposure>, h: Holdings)
    requires rows != [] && |Promote(rows[..|rows| - 1], h).0| == |rows| - 1
    ensures |Promote(rows, h).0| == |rows|
    ensures var n := |rows| - 1; var own := rows[n].Claims();
      exists stay, move ::
        && stay + move == (if rows[n].status.Established() || Covers(Promote(rows[..n], h).1, own) then own else [])
        && EstablishedClaims(Promote(rows, h).0) == EstablishedClaims(Promote(rows[..n], h).0) + (stay + move)
        && EstablishedClaims(rows) == EstablishedClaims(rows[..n]) + stay
        && PromotedClaims(rows, h) == PromotedClaims(rows[..n], h) + move
        && (stay == [] || move == [])
  {
    var n := |rows| - 1;
    var own := rows[n].Claims();
    assert Promote(rows, h).0[..n] == Promote(rows[..n], h).0;
    var established, covered := rows[n].status.Established(), Covers(Promote(rows[..n], h).1, own);
    var stay := if established then own else [];
    var move := if !established && covered then own else [];
    assert own + [] == own && [] + own == own;
    assert EstablishedClaims(rows) == EstablishedClaims(rows[..n]) + stay;
    assert PromotedClaims(rows, h) == PromotedClaims(rows[..n], h) + move;
    assert EstablishedClaims(Promote(rows, h).0) == EstablishedClaims(Promote(rows[..n], h).0) + (stay + move);
  }

  /** Promotion only moves claims from the pending to the established rows. */
  lemma {:induction false} PromoteMovesClaims(rows: seq<Exposure>, h: Holdings)
    ensures |Promote(rows, h).0| == |rows|
    ensures multiset(EstablishedClaims(Promote(rows, h).0))
         == multiset(EstablishedClaims(rows)) + multiset(PromotedClaims(rows, h))
  {
    hide Covers, DeductAll;
    if rows != [] {
      PromoteMovesClaims(rows[..|rows| - 1], h);
      LastRowClaims(rows, h);
    }
  }

  /** A row left pending is not covered by what remains at the end. */
  lemma {:induction false} PendingStaysUncovered(rows: seq<Exposure>, h: Holdings)
    requires forall r <- rows :: ValidRow(r)
    ensures Within(Promote(rows, h).1, h)
    ensures |Promote(rows, h).0| == |rows|
    ensures forall r <- Promote(rows, h).0 :: ValidRow(r)
    ensures forall r <- Promote(rows, h).0 :: r.status.Established() || !Covers(Promote(rows, h).1, r.Claims())
  {
    if rows != [] {
      var n := |rows| - 1;
      assert rows[n] in rows;
      PendingStaysUncovered(rows[..n], h);
      var (earlier, rest) := Promote(rows[..n], h);
      var (all, final) := Promote(rows, h);
      if final != rest {
        ConsumeIsReserve(rest, rows[n].Claims());
        ReserveStaysWithin(rest, rows[n].Claims());
      }
      forall r | r in earlier && !r.status.Established() ensures !Covers(final, r.Claims()) {
        if Covers(final, r.Claims()) {
          CoversWithin(final, rest, r.Claims());
        }
      }
      assert forall r <- all :: r in earlier || r == all[n];
    }
  }

  lemma {:induction false} NothingCoveredNothingPromoted(rows: seq<Exposure>, h: Holdings)
    requires forall r <- rows :: r.status.Established() || !Covers(h, r.Claims())
    ensures Promote(rows, h) == (rows, h)
  {
    if rows != [] {
      var n := |rows| - 1;
      assert rows[n] in rows;
      NothingCoveredNothingPromoted(rows[..n], h);
      assert rows == rows[..n] + [rows[n]];
    }
  }

  /** Repeating the whole normalisation on the same broker positions promotes no further order. */
  lemma NormalizeIdempotent(rows: seq<Exposure>, positions: Holdings)
    requires forall r <- rows :: ValidRow(r)
    ensures Normalize(Normalize(rows, positions), positions) == Normalize(rows, positions)
  {
    var reserved := ReserveAll(positions, EstablishedClaims(rows));
    var (once, left) := Promote(rows, reserved);
    PromoteIsReserve(rows, reserved);
    PromoteMovesClaims(rows, reserved);
    PendingStaysUncovered(rows, reserved);
    EstablishedClaimsValid(rows);
    EstablishedClaimsValid(once);
    ReserveSplits(positions, EstablishedClaims(rows), PromotedClaims(rows, reserved));
    ReserveIgnoresOrder(positions, EstablishedClaims(once), EstablishedClaims(rows) + PromotedClaims(rows, reserved));
    NothingCoveredNothingPromoted(once, left);
  }

  /** Conservation: what the normalised book claims of a symbol on the side the broker holds, whatever
      the order of its rows, leaves exactly the closed-form residual; nothing is matched twice. */
  lemma NormalizeConserves(rows: seq<Exposure>, positions: Holdings, symbol: Symbol)
    requires forall r <- rows :: ValidRow(r)
    ensures var held := Contracts(positions, symbol);
      Contracts(Promote(rows, ReserveAll(positions, EstablishedClaims(rows))).1, symbol)
      == Residual(held, Claimed(EstablishedClaims(Normalize(rows, positions)), symbol, Side(held)))
  {
    var reserved := ReserveAll(positions, EstablishedClaims(rows));
    var once := Promote(rows, reserved).0;
    PromoteIsReserve(rows, reserved);
    PromoteMovesClaims(rows, reserved);
    PendingStaysUncovered(rows, reserved);
    EstablishedClaimsValid(rows);
    EstablishedClaimsValid(once);
    ReserveSplits(positions, EstablishedClaims(rows), PromotedClaims(rows, reserved));
    ReserveIgnoresOrder(positions, EstablishedClaims(once), EstablishedClaims(rows) + PromotedClaims(rows, reserved));
    ReserveClosedForm(positions, EstablishedClaims(once), symbol);
  }
}
