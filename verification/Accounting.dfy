/** The share accounting of the generated contract `SyntheticAccounting`: shares are minted and
    burned against managed assets with floor division on checked 256-bit integers. */
module Accounting {

  const UINT_LIMIT: nat :=
    0x1_0000_0000_0000_0000_0000_0000_0000_0000_0000_0000_0000_0000_0000_0000_0000_0000

  type Address = nat

  /** The contract's storage; an absent key of a Solidity mapping reads as zero. */
  datatype Ledger = Ledger(balance: map<Address, nat>, shares: nat, assets: nat)

  datatype Op = Mint(receiver: Address, paid: nat) | Burn(owner: Address, burned: nat)

  datatype Fault = InvalidSyntheticAmount | InsufficientSyntheticBalance | Panic

  /** A call either returns a converted amount or reverts, and a revert undoes every write. */
  datatype Outcome = Returned(amount: nat) | Reverted(fault: Fault)

  const EMPTY := Ledger(map[], 0, 0)

  function BalanceOf(l: Ledger, a: Address): nat {
    if a in l.balance then l.balance[a] else 0
  }

  /** `x * y / z` as Solidity computes it; the product itself may overflow. */
  function MulDiv(x: nat, y: nat, z: nat): Outcome
    requires z > 0
  {
    if x * y < UINT_LIMIT then Returned(x * y / z) else Reverted(Panic)
  }

  function ConvertToShares(l: Ledger, assets: nat): Outcome {
    if assets == 0 then Reverted(InvalidSyntheticAmount)
    else if l.shares == 0 || l.assets == 0 then Returned(assets)
    else MulDiv(assets, l.shares, l.assets)
  }

  function ConvertToAssets(l: Ledger, shares: nat): Outcome {
    if shares == 0 then Reverted(InvalidSyntheticAmount)
    else if l.shares == 0 || l.assets == 0 then Returned(shares)
    else MulDiv(shares, l.assets, l.shares)
  }

  /** What one call returns. */
  function Result(l: Ledger, op: Op): Outcome {
    match op
    case Mint(receiver, paid) =>
      var c := ConvertToShares(l, paid);
      if c.Reverted? then c
      else if BalanceOf(l, receiver) + c.amount >= UINT_LIMIT
           || l.shares + c.amount >= UINT_LIMIT
           || l.assets + paid >= UINT_LIMIT then Reverted(Panic)
      else c
    case Burn(owner, burned) =>
      if BalanceOf(l, owner) < burned then Reverted(InsufficientSyntheticBalance)
      else
        var c := ConvertToAssets(l, burned);
        if c.Reverted? then c
        else if l.shares < burned || l.assets < c.amount then Reverted(Panic)
        else c
  }

  /** The storage one call leaves behind. */
  function After(l: Ledger, op: Op): Ledger {
    var r := Result(l, op);
    if r.Reverted? then l
    else match op
      case Mint(receiver, paid) =>
        Ledger(l.balance[receiver := BalanceOf(l, receiver) + r.amount],
               l.shares + r.amount, l.assets + paid)
      case Burn(owner, burned) =>
        Ledger(l.balance[owner := BalanceOf(l, owner) - burned],
               l.shares - burned, l.assets - r.amount)
  }

  function Run(l: Ledger, ops: seq<Op>): Ledger
    decreases |ops|
  {
    if ops == [] then l else Run(After(l, ops[0]), ops[1..])
  }

  function Actor(op: Op): Address {
    match op case Mint(receiver, _) => receiver case Burn(owner, _) => owner
  }

  /** The contract itself: three storage slots that the two internal functions update. */
  class SyntheticAccounting {
    var shareBalance: map<Address, nat>
    var totalShares: nat
    var totalManagedAssets: nat

    function Storage(): Ledger
      reads this
    {
      Ledger(shareBalance, totalShares, totalManagedAssets)
    }

    constructor ()
      ensures Storage() == EMPTY
    {
      shareBalance, totalShares, totalManagedAssets := map[], 0, 0;
    }

    method MintSyntheticShares(receiver: Address, assets: nat) returns (r: Outcome)
      modifies this
      ensures r == Result(old(Storage()), Mint(receiver, assets))
      ensures Storage() == After(old(Storage()), Mint(receiver, assets))
    {
      r := ConvertToShares(Storage(), assets);
      if r.Reverted? { return; }
      var shares := r.amount;
      var held := BalanceOf(Storage(), receiver) + shares;
      if held >= UINT_LIMIT || totalShares + shares >= UINT_LIMIT
         || totalManagedAssets + assets >= UINT_LIMIT {
        return Reverted(Panic);
      }
      shareBalance := shareBalance[receiver := held];
      totalShares := totalShares + shares;
      totalManagedAssets := totalManagedAssets + assets;
    }

    method BurnSyntheticShares(owner: Address, shares: nat) returns (r: Outcome)
      modifies this
      ensures r == Result(old(Storage()), Burn(owner, shares))
      ensures Storage() == After(old(Storage()), Burn(owner, shares))
    {
      if BalanceOf(Storage(), owner) < shares {
        return Reverted(InsufficientSyntheticBalance);
      }
      r := ConvertToAssets(Storage(), shares);
      if r.Reverted? { return; }
      if totalShares < shares || totalManagedAssets < r.amount {
        return Reverted(Panic);
      }
      shareBalance := shareBalance[owner := shareBalance[owner] - shares];
      totalShares := totalShares - shares;
      totalManagedAssets := totalManagedAssets - r.amount;
    }
  }

  // ---------------------------------------------------------------- the invariant of every run

  ghost function Sum(m: map<Address, nat>): nat
    decreases |m|
  {
    if m == map[] then 0
    else
      var a :| a in m;
      m[a] + Sum(m - {a})
  }

  /** The sum does not depend on which key is taken out first. */
  lemma {:induction false} SumRemove(m: map<Address, nat>, a: Address)
    requires a in m
    ensures Sum(m) == m[a] + Sum(m - {a})
    decreases |m|
  {
    var b :| b in m && Sum(m) == m[b] + Sum(m - {b});
    if a != b {
      SumRemove(m - {b}, a);
      SumRemove(m - {a}, b);
      assert m - {a} - {b} == m - {b} - {a};
    }
  }

  lemma SumUpdate(l: Ledger, a: Address, v: nat)
    ensures Sum(l.balance[a := v]) == Sum(l.balance) - BalanceOf(l, a) + v
    ensures BalanceOf(l, a) <= Sum(l.balance)
  {
    var m := l.balance[a := v];
    SumRemove(m, a);
    assert m - {a} == l.balance - {a};
    if a in l.balance {
      SumRemove(l.balance, a);
    } else {
      assert l.balance - {a} == l.balance;
    }
  }

  ghost predicate Good(l: Ledger) {
    && Sum(l.balance) == l.shares < UINT_LIMIT
    && l.assets < UINT_LIMIT
    && (l.shares == 0 <==> l.assets == 0)
  }

  lemma FloorBounds(n: nat, d: nat)
    requires d > 0
    ensures n / d * d <= n < n / d * d + d
  {
  }

  lemma LessFromProducts(x: int, y: int, s: int)
    requires s > 0 && x * s < y * s
    ensures x < y
  {
  }

  lemma LessEqualFromProducts(x: int, y: int, s: int)
    requires s > 0 && x * s <= y * s
    ensures x <= y
  {
  }

  /** A partial burn leaves assets behind and a full burn takes them all. */
  lemma BurnAmount(shares: nat, assets: nat, burned: nat)
    requires 0 < burned <= shares
    ensures burned * assets / shares * shares <= burned * assets
    ensures burned < shares && assets > 0 ==> burned * assets / shares < assets
    ensures burned == shares ==> burned * assets / shares == assets
    ensures burned * assets / shares <= assets
  {
    var p := burned * assets / shares;
    FloorBounds(burned * assets, shares);
    if burned < shares && assets > 0 {
      calc {
        p * shares;
        <= burned * assets;
        < { assert (shares - burned) * assets > 0; } assets * shares;
      }
      LessFromProducts(p, assets, shares);
    } else if burned == shares {
      assert p == assets by {
        assert burned * assets == assets * shares;
        assert p * shares <= assets * shares;
        assert assets * shares < (p + 1) * shares;
        LessEqualFromProducts(p, assets, shares);
        LessFromProducts(assets, p + 1, shares);
      }
    }
  }

  lemma StepKeepsGood(l: Ledger, op: Op)
    requires Good(l)
    ensures Good(After(l, op))
  {
    var r := Result(l, op);
    if r.Returned? {
      match op
      case Mint(receiver, paid) =>
        SumUpdate(l, receiver, BalanceOf(l, receiver) + r.amount);
      case Burn(owner, burned) =>
        SumUpdate(l, owner, BalanceOf(l, owner) - burned);
        BurnAmount(l.shares, l.assets, burned);
    }
  }

  lemma {:induction false} RunKeepsGood(l: Ledger, ops: seq<Op>)
    requires Good(l)
    ensures Good(Run(l, ops))
    decreases |ops|
  {
    if ops != [] {
      StepKeepsGood(l, ops[0]);
      RunKeepsGood(After(l, ops[0]), ops[1..]);
    }
  }

  /** Every run from the deployed contract: balances add up to the total, and the two totals
      are zero together. */
  lemma EveryRunIsGood(ops: seq<Op>)
    ensures Good(Run(EMPTY, ops))
  {
    RunKeepsGood(EMPTY, ops);
  }

  /** The checked subtractions of a burn cannot be what makes it revert: in every reachable
      state a burn reverts exactly for a short balance, a zero amount or an overflowing product. */
  lemma BurnNeverUnderflows(ops: seq<Op>, owner: Address, burned: nat)
    ensures var l := Run(EMPTY, ops);
            var r := Result(l, Burn(owner, burned));
            && (r.Reverted? <==>
                 || BalanceOf(l, owner) < burned
                 || burned == 0
                 || burned * l.assets >= UINT_LIMIT)
            && (r.Returned? ==> r.amount <= l.assets && burned <= l.shares)
  {
    var l := Run(EMPTY, ops);
    EveryRunIsGood(ops);
    SumUpdate(l, owner, 0);
    if 0 < burned <= BalanceOf(l, owner) {
      BurnAmount(l.shares, l.assets, burned);
    }
  }

  // ---------------------------------------------------------------- what one call does, in inequalities

  function Square(n: nat): nat { n * n }

  /** The limit is two to the power 256. */
  lemma LimitIsTwoTo256()
    ensures UINT_LIMIT == Square(Square(Square(Square(Square(Square(Square(Square(2))))))))
  {
    assert Square(Square(Square(2))) == 256;
    assert Square(Square(256)) == 0x1_0000_0000;
    assert Square(0x1_0000_0000) == 0x1_0000_0000_0000_0000;
    assert Square(0x1_0000_0000_0000_0000) == 0x1_0000_0000_0000_0000_0000_0000_0000_0000;
    assert Square(0x1_0000_0000_0000_0000_0000_0000_0000_0000) == UINT_LIMIT;
  }

  /** `n` is the whole number of times `d` goes into `x`. */
  predicate IsFloor(n: nat, x: nat, d: nat) {
    n * d <= x < (n + 1) * d
  }

  lemma FloorIs(n: nat, x: nat, d: nat)
    requires d > 0 && IsFloor(n, x, d)
    ensures x / d == n
  {
    FloorBounds(x, d);
    LessFromProducts(x / d, n + 1, d);
    LessFromProducts(n, x / d + 1, d);
  }

  lemma MintResult(l: Ledger, receiver: Address, paid: nat, minted: nat)
    requires Good(l) && (if l.shares == 0 then minted == paid else IsFloor(minted, paid * l.shares, l.assets))
    ensures Result(l, Mint(receiver, paid)) ==
            if paid == 0 then Reverted(InvalidSyntheticAmount)
            else if paid * l.shares >= UINT_LIMIT || l.shares + minted >= UINT_LIMIT || l.assets + paid >= UINT_LIMIT
            then Reverted(Panic)
            else Returned(minted)
  {
    hide Sum, IsFloor;
    SumUpdate(l, receiver, 0);
    if l.shares > 0 { FloorIs(minted, paid * l.shares, l.assets); }
  }

  lemma BurnResult(l: Ledger, owner: Address, burned: nat, paid: nat)
    requires Good(l) && (l.shares > 0 ==> IsFloor(paid, burned * l.assets, l.shares))
    ensures Result(l, Burn(owner, burned)) ==
            if BalanceOf(l, owner) < burned then Reverted(InsufficientSyntheticBalance)
            else if burned == 0 then Reverted(InvalidSyntheticAmount)
            else if burned * l.assets >= UINT_LIMIT then Reverted(Panic)
            else Returned(paid)
  {
    hide Sum, IsFloor;
    SumUpdate(l, owner, 0);
    if 0 < burned <= BalanceOf(l, owner) {
      FloorIs(paid, burned * l.assets, l.shares);
      BurnAmount(l.shares, l.assets, burned);
    }
  }

  /** A mint in every reachable state. The first deposit gives as many shares as assets, later ones the floor
      of their worth, to the receiver alone; it reverts exactly for a zero amount, an overflowing product or
      an overflowing total, and then changes nothing. */
  lemma MintExact(ops: seq<Op>, receiver: Address, paid: nat, minted: nat)
    requires var l := Run(EMPTY, ops);
             if l.shares == 0 then minted == paid else IsFloor(minted, paid * l.shares, l.assets)
    ensures var l := Run(EMPTY, ops);
            var m := Run(EMPTY, ops + [Mint(receiver, paid)]);
            var r := Result(l, Mint(receiver, paid));
            if paid == 0 then r == Reverted(InvalidSyntheticAmount) && m == l
            else if paid * l.shares >= UINT_LIMIT || l.shares + minted >= UINT_LIMIT || l.assets + paid >= UINT_LIMIT
            then r == Reverted(Panic) && m == l
            else && r == Returned(minted) && m.shares == l.shares + minted && m.assets == l.assets + paid
                 && (forall a :: BalanceOf(m, a) == if a == receiver then BalanceOf(l, a) + minted else BalanceOf(l, a))
  {
    hide Good, Result, Run, IsFloor;
    EveryRunIsGood(ops);
    RunAppend(EMPTY, ops, Mint(receiver, paid));
    MintResult(Run(EMPTY, ops), receiver, paid, minted);
  }

  /** A burn in every reachable state. It pays the floor of the worth of the shares and takes them from the
      owner alone; it reverts exactly for a short balance, a zero amount or an overflowing product. */
  lemma BurnExact(ops: seq<Op>, owner: Address, burned: nat, paid: nat)
    requires var l := Run(EMPTY, ops);
             l.shares > 0 ==> IsFloor(paid, burned * l.assets, l.shares)
    ensures var l := Run(EMPTY, ops);
            var m := Run(EMPTY, ops + [Burn(owner, burned)]);
            var r := Result(l, Burn(owner, burned));
            if BalanceOf(l, owner) < burned then r == Reverted(InsufficientSyntheticBalance) && m == l
            else if burned == 0 then r == Reverted(InvalidSyntheticAmount) && m == l
            else if burned * l.assets >= UINT_LIMIT then r == Reverted(Panic) && m == l
            else && r == Returned(paid) && m.shares == l.shares - burned && m.assets == l.assets - paid
                 && (forall a :: BalanceOf(m, a) == if a == owner then BalanceOf(l, a) - burned else BalanceOf(l, a))
  {
    hide Good, Result, Run, IsFloor;
    EveryRunIsGood(ops);
    RunAppend(EMPTY, ops, Burn(owner, burned));
    BurnResult(Run(EMPTY, ops), owner, burned, paid);
    BurnNeverUnderflows(ops, owner, burned);
  }

  /** A run is its steps, one after the other. */
  lemma {:induction false} RunAppend(l: Ledger, ops: seq<Op>, op: Op)
    ensures Run(l, ops + [op]) == After(Run(l, ops), op)
    decreases |ops|
  {
    hide After;
    if ops == [] {
      assert Run(After(l, op), []) == After(l, op);
      assert [op][1..] == [];
    } else {
      assert (ops + [op])[1..] == ops[1..] + [op];
      RunAppend(After(l, ops[0]), ops[1..], op);
    }
  }

  // ---------------------------------------------------------------- price and claims

  /** Assets per share in `l` is at most assets per share in `m`. */
  ghost predicate PriceAtMost(l: Ledger, m: Ledger) {
    l.assets * m.shares <= m.assets * l.shares
  }

  lemma MintPrice(shares: nat, assets: nat, paid: nat, minted: nat)
    requires minted * assets <= paid * shares
    ensures assets * (shares + minted) <= (assets + paid) * shares
  {
    assert assets * (shares + minted) == assets * shares + minted * assets;
    assert (assets + paid) * shares == assets * shares + paid * shares;
  }

  lemma BurnPrice(shares: nat, assets: nat, burned: nat, amount: nat)
    requires burned <= shares && amount * shares <= burned * assets
    ensures assets * (shares - burned) <= (assets - amount) * shares
  {
    assert assets * (shares - burned) == assets * shares - burned * assets;
    assert (assets - amount) * shares == assets * shares - amount * shares;
  }

  /** What a successful call did to the two totals, with the rounding always against the caller. */
  lemma StepRounding(l: Ledger, op: Op)
    requires Good(l) && Result(l, op).Returned?
    ensures var amount := Result(l, op).amount;
            var m := After(l, op);
            match op
            case Mint(_, paid) =>
              && m.shares == l.shares + amount && m.assets == l.assets + paid
              && (if l.shares == 0 then amount == paid else amount * l.assets <= paid * l.shares)
            case Burn(owner, burned) =>
              && 0 < burned <= BalanceOf(l, owner) <= l.shares
              && m.shares == l.shares - burned && m.assets == l.assets - amount
              && amount * l.shares <= burned * l.assets
  {
    match op
    case Mint(_, paid) =>
      if l.shares > 0 {
        FloorBounds(paid * l.shares, l.assets);
      }
    case Burn(owner, burned) =>
      SumUpdate(l, owner, 0);
      BurnAmount(l.shares, l.assets, burned);
  }

  lemma StepPrice(l: Ledger, op: Op)
    requires Good(l) && l.shares > 0
    ensures PriceAtMost(l, After(l, op))
  {
    if Result(l, op).Returned? {
      StepRounding(l, op);
      match op
      case Mint(_, paid) => MintPrice(l.shares, l.assets, paid, Result(l, op).amount);
      case Burn(_, burned) => BurnPrice(l.shares, l.assets, burned, Result(l, op).amount);
    }
  }

  lemma PriceTransitive(a: Ledger, b: Ledger, c: Ledger)
    requires PriceAtMost(a, b) && PriceAtMost(b, c) && b.shares > 0
    ensures PriceAtMost(a, c)
  {
    calc {
      a.assets * c.shares * b.shares;
      (a.assets * b.shares) * c.shares;
      <= (b.assets * a.shares) * c.shares;
      (b.assets * c.shares) * a.shares;
      <= (c.assets * b.shares) * a.shares;
      c.assets * a.shares * b.shares;
    }
    LessEqualFromProducts(a.assets * c.shares, c.assets * a.shares, b.shares);
  }

  ghost predicate SharesRemain(l: Ledger, ops: seq<Op>) {
    forall i :: 0 <= i < |ops| ==> Run(l, ops[..i]).shares > 0
  }

  lemma {:induction false} SharesRemainTail(l: Ledger, ops: seq<Op>)
    requires ops != [] && SharesRemain(l, ops)
    ensures l.shares > 0
    ensures SharesRemain(After(l, ops[0]), ops[1..])
  {
    assert Run(l, ops[..0]) == l;
    forall i | 0 <= i < |ops[1..]|
      ensures Run(After(l, ops[0]), ops[1..][..i]).shares > 0
    {
      assert ops[..i + 1][1..] == ops[1..][..i];
      assert Run(l, ops[..i + 1]).shares > 0;
    }
  }

  /** Assets per share never fall along a run in which shares remain, whoever mints or burns. */
  lemma {:induction false} PriceNeverFalls(l: Ledger, ops: seq<Op>)
    requires Good(l) && SharesRemain(l, ops)
    ensures PriceAtMost(l, Run(l, ops))
    decreases |ops|
  {
    hide After;
    if ops != [] {
      var m := After(l, ops[0]);
      SharesRemainTail(l, ops);
      StepKeepsGood(l, ops[0]);
      StepPrice(l, ops[0]);
      PriceNeverFalls(m, ops[1..]);
      if |ops| > 1 {
        assert SharesRemain(m, ops[1..]) && Run(m, ops[1..][..0]) == m;
        PriceTransitive(l, m, Run(l, ops));
      }
    }
  }

  /** What a holder would be paid for the whole balance. */
  function Claim(l: Ledger, a: Address): nat {
    if l.shares == 0 then 0 else BalanceOf(l, a) * l.assets / l.shares
  }

  lemma FloorMonotone(x: nat, d: nat, y: nat, e: nat)
    requires d > 0 && e > 0 && x * e <= y * d
    ensures x / d <= y / e
  {
    var p := x / d;
    FloorBounds(x, d);
    FloorBounds(y, e);
    calc {
      p * e * d;
      (p * d) * e;
      <= x * e;
      <= y * d;
      < (y / e * e + e) * d;
      ((y / e + 1) * e) * d;
      (y / e + 1) * e * d;
    }
    LessFromProducts(p * e, (y / e + 1) * e, d);
    LessFromProducts(p, y / e + 1, e);
  }

  /** A balance of `b` shares is worth no less at a price that is no lower. */
  lemma ClaimMonotone(b: nat, shares: nat, assets: nat, shares': nat, assets': nat)
    requires shares > 0 && shares' > 0
    requires assets * shares' <= assets' * shares
    ensures b * assets / shares <= b * assets' / shares'
  {
    calc {
      (b * assets) * shares';
      b * (assets * shares');
      <= b * (assets' * shares);
      (b * assets') * shares;
    }
    FloorMonotone(b * assets, shares, b * assets', shares');
  }

  lemma StepBalance(l: Ledger, op: Op, a: Address)
    requires a != Actor(op)
    ensures BalanceOf(After(l, op), a) == BalanceOf(l, a)
  {
    hide Result;
  }

  lemma StepClaim(l: Ledger, op: Op, a: Address)
    requires Good(l) && a != Actor(op)
    ensures Claim(l, a) <= Claim(After(l, op), a)
  {
    hide After;
    var m := After(l, op);
    StepBalance(l, op, a);
    if BalanceOf(l, a) > 0 {
      StepKeepsGood(l, op);
      SumUpdate(l, a, 0);
      SumUpdate(m, a, 0);
      StepPrice(l, op);
      ClaimMonotone(BalanceOf(l, a), l.shares, l.assets, m.shares, m.assets);
    }
  }

  /** A claim is what burning the whole balance pays. */
  lemma ClaimIsPaid(l: Ledger, a: Address)
    requires Good(l) && Result(l, Burn(a, BalanceOf(l, a))).Returned?
    ensures Result(l, Burn(a, BalanceOf(l, a))).amount == Claim(l, a)
  {
    hide Sum;
    SumUpdate(l, a, 0);
  }

  /** Nothing other holders do lowers a holder's redeemable claim, over any run of theirs. */
  lemma {:induction false} OthersClaimNeverDrops(l: Ledger, ops: seq<Op>, a: Address)
    requires Good(l)
    requires forall op :: op in ops ==> Actor(op) != a
    ensures Claim(l, a) <= Claim(Run(l, ops), a)
    decreases |ops|
  {
    hide After, Claim;
    if ops != [] {
      StepKeepsGood(l, ops[0]);
      StepClaim(l, ops[0], a);
      OthersClaimNeverDrops(After(l, ops[0]), ops[1..], a);
    }
  }

  // ---------------------------------------------------------------- solvency

  /** What a balance is worth at the price of `assets` for `shares`. */
  function Worth(balance: nat, shares: nat, assets: nat): nat
    requires shares > 0
  {
    balance * assets / shares
  }

  lemma WorthBound(balance: nat, shares: nat, assets: nat)
    requires shares > 0
    ensures Worth(balance, shares, assets) * shares <= balance * assets
  {
    FloorBounds(balance * assets, shares);
  }

  function Claims(m: map<Address, nat>, shares: nat, assets: nat): map<Address, nat>
    requires shares > 0
  {
    map a | a in m :: Worth(m[a], shares, assets)
  }

  lemma AddClaim(claim: nat, rest: nat, balance: nat, total: nat, shares: nat, assets: nat)
    requires claim * shares <= balance * assets && rest * shares <= total * assets
    ensures (claim + rest) * shares <= (balance + total) * assets
  {
    assert (claim + rest) * shares == claim * shares + rest * shares;
    assert (balance + total) * assets == balance * assets + total * assets;
  }

  lemma ClaimsRemove(m: map<Address, nat>, shares: nat, assets: nat, a: Address)
    requires shares > 0 && a in m
    ensures Sum(Claims(m, shares, assets)) == Worth(m[a], shares, assets) + Sum(Claims(m - {a}, shares, assets))
  {
    hide Worth, Sum;
    SumRemove(Claims(m, shares, assets), a);
    assert Claims(m, shares, assets) - {a} == Claims(m - {a}, shares, assets);
  }

  lemma EmptyClaims(shares: nat, assets: nat)
    requires shares > 0
    ensures Sum(Claims(map[], shares, assets)) == 0
  {
    assert Claims(map[], shares, assets) == map[];
  }

  /** Floors of parts are worth no more than the whole. */
  lemma {:induction false} ClaimsWithin(m: map<Address, nat>, shares: nat, assets: nat)
    requires shares > 0
    ensures Sum(Claims(m, shares, assets)) * shares <= Sum(m) * assets
    decreases |m|
  {
    hide Worth, Sum, Claims;
    if m == map[] {
      EmptyClaims(shares, assets);
    } else {
      var a :| a in m;
      var rest := m - {a};
      ClaimsWithin(rest, shares, assets);
      SumRemove(m, a);
      ClaimsRemove(m, shares, assets, a);
      WorthBound(m[a], shares, assets);
      AddClaim(Worth(m[a], shares, assets), Sum(Claims(rest, shares, assets)), m[a], Sum(rest), shares, assets);
    }
  }

  /** What every holder would be paid for the whole balance. */
  function AllClaims(l: Ledger): map<Address, nat> {
    map a | a in l.balance :: Claim(l, a)
  }

  lemma ClaimsAre(l: Ledger)
    requires l.shares > 0
    ensures Claims(l.balance, l.shares, l.assets) == AllClaims(l)
  {
    forall a | a in l.balance ensures Claim(l, a) == Worth(l.balance[a], l.shares, l.assets) { ClaimIsWorth(l, a); }
    hide Worth, Claim;
  }

  lemma ClaimIsWorth(l: Ledger, a: Address)
    requires l.shares > 0 && a in l.balance
    ensures Claim(l, a) == Worth(l.balance[a], l.shares, l.assets)
  {
  }

  lemma ClaimsCovered(l: Ledger)
    requires Good(l)
    ensures Sum(AllClaims(l)) <= l.assets
  {
    hide Sum, AllClaims, Claims;
    if l.shares == 0 {
      NoClaims(l);
    } else {
      ClaimsAre(l);
      ClaimsWithin(l.balance, l.shares, l.assets);
      Divide(Sum(AllClaims(l)), l.shares, l.assets);
    }
  }

  lemma Divide(claims: nat, shares: nat, assets: nat)
    requires shares > 0 && claims * shares <= shares * assets
    ensures claims <= assets
  {
    LessEqualFromProducts(claims, assets, shares);
  }

  lemma NoClaims(l: Ledger)
    requires l.shares == 0
    ensures Sum(AllClaims(l)) == 0
  {
    hide Sum;
    AllZero(AllClaims(l));
  }

  /** Every run: what all holders together could redeem is never more than the managed assets. */
  lemma Solvent(ops: seq<Op>)
    ensures Sum(AllClaims(Run(EMPTY, ops))) <= Run(EMPTY, ops).assets
  {
    hide Run, After, Sum, AllClaims, Good;
    EveryRunIsGood(ops);
    ClaimsCovered(Run(EMPTY, ops));
  }

  lemma {:induction false} AllZero(m: map<Address, nat>)
    requires forall a :: a in m ==> m[a] == 0
    ensures Sum(m) == 0
    decreases |m|
  {
    if m != map[] {
      var a :| a in m;
      SumRemove(m, a);
      AllZero(m - {a});
    }
  }

  // ---------------------------------------------------------------- no profit from a round trip

  /** What a series of burns by one owner pays out, reverted burns paying nothing. */
  function Redeemed(l: Ledger, owner: Address, burns: seq<nat>): nat
    decreases |burns|
  {
    if burns == [] then 0
    else
      var op := Burn(owner, burns[0]);
      var r := Result(l, op);
      (if r.Returned? then r.amount else 0) + Redeemed(After(l, op), owner, burns[1..])
  }

  function Total(s: seq<nat>): nat {
    if s == [] then 0 else s[0] + Total(s[1..])
  }

  function Burns(owner: Address, burns: seq<nat>): seq<Op> {
    seq(|burns|, i requires 0 <= i < |burns| => Burn(owner, burns[i]))
  }

  /** What is paid out is what leaves the managed assets. */
  lemma {:induction false} RedeemedLeaves(l: Ledger, owner: Address, burns: seq<nat>)
    requires Good(l)
    ensures Run(l, Burns(owner, burns)).assets == l.assets - Redeemed(l, owner, burns)
    decreases |burns|
  {
    hide Sum;
    if burns != [] {
      var op := Burn(owner, burns[0]);
      StepKeepsGood(l, op);
      assert Burns(owner, burns)[1..] == Burns(owner, burns[1..]);
      RedeemedLeaves(After(l, op), owner, burns[1..]);
    }
  }

  lemma Regroup(a: int, b: int, c: int)
    ensures a * b * c == (a * c) * b
  {
  }

  lemma Difference(a: int, b: int, c: int, d: int)
    ensures (a - b) * (c - d) == a * c - a * d - b * c + b * d
  {
  }

  /** What `q * shares` leaves over `x * assets`, and `y * assets` over `p * shares`, is shared out
      between the two sides. */
  lemma RedemptionBalance(shares: int, assets: int, q: int, x: int, y: int, p: int)
    ensures ((q - p) * (shares - y) - (x - y) * (assets - p)) * shares ==
            (q * shares - x * assets) * (shares - y) + (y * assets - p * shares) * (shares - x)
  {
    var g, r := q * shares - x * assets, y * assets - p * shares;
    Difference(q, p, shares, y);
    Difference(x, y, assets, p);
    var d := (q - p) * (shares - y) - (x - y) * (assets - p);
    assert d == g + r - q * y + x * p;
    assert d * shares == (g + r) * shares - q * y * shares + x * p * shares by {
      Distribute(g + r, q * y, x * p, shares);
    }
    Regroup(q, y, shares);
    Regroup(x, p, shares);
    assert x * p * shares == x * (p * shares) by { Associate(x, p, shares); }
    assert (q * shares) * y == g * y + x * assets * y by { DistributeTwo(g, x * assets, y); }
    assert x * (p * shares) == x * (y * assets) - x * r by { DistributeRight(x, y * assets, p * shares); }
    assert x * assets * y == x * (y * assets) by { Associate(x, y, assets); Regroup(x, assets, y); }
    assert (g + r) * shares == g * shares + r * shares by { DistributeTwo(g, r, shares); }
    assert g * (shares - y) == g * shares - g * y by { DistributeRight(g, shares, shares - y); }
    assert r * (shares - x) == r * shares - x * r by { DistributeRight(r, shares, shares - x); }
  }

  lemma Associate(a: int, b: int, c: int)
    ensures a * b * c == a * (b * c)
  {
  }

  lemma Distribute(a: int, b: int, c: int, s: int)
    ensures (a - b + c) * s == a * s - b * s + c * s
  {
  }

  lemma DistributeTwo(a: int, b: int, s: int)
    ensures (a + b) * s == a * s + b * s
  {
  }

  lemma DistributeRight(a: int, b: int, c: int)
    ensures a * c == a * b - a * (b - c)
  {
  }

  lemma NonNegative(a: int, b: int)
    requires a >= 0 && b >= 0
    ensures a * b >= 0
  {
  }

  /** The arithmetic heart of a split redemption: `q` is the budget still unpaid, `x` the shares
      still to redeem, `y` the part burned now for `p`. */
  lemma RedemptionStep(shares: nat, assets: nat, q: int, x: nat, y: nat, p: nat)
    requires 0 < y <= x <= shares
    requires p * shares <= y * assets
    requires x * assets <= q * shares
    ensures p <= q
    ensures (x - y) * (assets - p) <= (q - p) * (shares - y)
  {
    RedemptionBalance(shares, assets, q, x, y, p);
    NonNegative(q * shares - x * assets, shares - y);
    NonNegative(y * assets - p * shares, shares - x);
    var d := (q - p) * (shares - y) - (x - y) * (assets - p);
    LessEqualFromProducts(0, d, shares);
    NonNegative(x - y, assets);
    DistributeTwo(x - y, y, assets);
    LessEqualFromProducts(p, q, shares);
  }

  lemma {:induction false} RedeemedWithin(l: Ledger, owner: Address, burns: seq<nat>, q: int, x: nat)
    requires Good(l)
    requires Total(burns) <= x <= l.shares
    requires 0 <= q && x * l.assets <= q * l.shares
    ensures Redeemed(l, owner, burns) <= q
    decreases |burns|
  {
    hide After, Result;
    if burns != [] {
      var op := Burn(owner, burns[0]);
      var r := Result(l, op);
      var m := After(l, op);
      StepKeepsGood(l, op);
      if r.Returned? {
        StepRounding(l, op);
        RedemptionStep(l.shares, l.assets, q, x, burns[0], r.amount);
        RedeemedWithin(m, owner, burns[1..], q - r.amount, x - burns[0]);
      } else {
        RevertKeeps(l, op);
        RedeemedWithin(m, owner, burns[1..], q, x);
      }
    }
  }

  lemma RevertKeeps(l: Ledger, op: Op)
    requires Result(l, op).Reverted?
    ensures After(l, op) == l
  {
    hide Result;
  }

  lemma RedemptionStart(shares: nat, assets: nat, paid: nat, minted: nat)
    requires if shares == 0 then minted == paid && assets == 0 else minted * assets <= paid * shares
    ensures minted * (assets + paid) <= paid * (shares + minted)
  {
    assert minted * (assets + paid) == minted * assets + minted * paid;
    assert paid * (shares + minted) == paid * shares + paid * minted;
  }

  /** Mint, then burn the minted shares in any number of pieces: never more comes back than was
      paid in. */
  lemma MintThenBurnNeverProfits(l: Ledger, receiver: Address, paid: nat, burns: seq<nat>)
    requires Good(l)
    requires Result(l, Mint(receiver, paid)).Returned?
    requires Total(burns) <= Result(l, Mint(receiver, paid)).amount
    ensures Redeemed(After(l, Mint(receiver, paid)), receiver, burns) <= paid
  {
    hide After, Result;
    var op := Mint(receiver, paid);
    var minted := Result(l, op).amount;
    StepKeepsGood(l, op);
    StepRounding(l, op);
    RedemptionStart(l.shares, l.assets, paid, minted);
    RedeemedWithin(After(l, op), receiver, burns, paid, minted);
  }
}
