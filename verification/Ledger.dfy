/** Double-entry ledger: atomic multi-leg transactions, balanced within each currency. */
module Ledger {
  import opened Money
  import opened Sums

  datatype Currency = Usdc | UsdcCredit

  datatype OwnerType = User | Pool | Fees | House | Escrow | External | Withheld | DepositSuspense | BonusReserve {
    predicate IsMoneySingleton() { Withheld? || DepositSuspense? || BonusReserve? }
  }

  /** Who an account belongs to; an owner has one account per currency. */
  datatype OwnerRef =
    | UserRef(user: nat) | MarketEscrow(market: nat) | MarketPool(market: nat)
    | FeesRef | HouseRef | ExternalRef | WithheldRef | SuspenseRef | BonusReserveRef

  datatype AccountId = AccountId(owner: OwnerRef, currency: Currency)

  datatype Account = Account(owner: OwnerType, currency: Currency, balance: I64)

  type Accounts = map<AccountId, Account>

  datatype Entry = Entry(account: AccountId, amount: I64)

  datatype LedgerError =
    | Unbalanced(sum: int)
    | UnbalancedCurrency(currency: Currency, sum: int)
    | TooFewEntries
    | ZeroEntry
    | InsufficientFunds(account: AccountId)
    | UnknownAccount
    | DuplicateExternal(currency: Currency)
    | DuplicateSingleton(owner: OwnerType, currency: Currency)
    | LedgerOverflow

  // ---------------------------------------------------------------- transactions

  function EntrySum(entries: seq<Entry>): int {
    if entries == [] then 0 else EntrySum(entries[..|entries| - 1]) + entries[|entries| - 1].amount
  }

  /** Structural validation only; currencies are checked against the accounts. */
  function CheckTransaction(entries: seq<Entry>): (r: Result<seq<Entry>, LedgerError>)
    ensures r.Ok? <==> WellFormed(entries)
    ensures r.Ok? ==> r.value == entries
    ensures r == Err(TooFewEntries) <==> |entries| < 2
    ensures r == Err(ZeroEntry) <==> |entries| >= 2 && exists i :: 0 <= i < |entries| && entries[i].amount == 0
    ensures r.Err? && r.error.Unbalanced? ==> r.error.sum == EntrySum(entries) != 0
  {
    if |entries| < 2 then Err(TooFewEntries)
    else if exists i :: 0 <= i < |entries| && entries[i].amount == 0 then Err(ZeroEntry)
    else if EntrySum(entries) != 0 then Err(Unbalanced(EntrySum(entries)))
    else Ok(entries)
  }

  predicate WellFormed(entries: seq<Entry>) {
    && |entries| >= 2
    && (forall i :: 0 <= i < |entries| ==> entries[i].amount != 0)
    && EntrySum(entries) == 0
  }

  /** What a transaction adds to one account, over all of its legs. */
  function Delta(entries: seq<Entry>, a: AccountId): int {
    if entries == [] then 0
    else
      var last := entries[|entries| - 1];
      Delta(entries[..|entries| - 1], a) + (if last.account == a then last.amount else 0)
  }

  predicate Known(accounts: Accounts, entries: seq<Entry>) {
    forall i :: 0 <= i < |entries| ==> entries[i].account in accounts
  }

  function Touched(entries: seq<Entry>): set<AccountId> {
    set i | 0 <= i < |entries| :: entries[i].account
  }

  /** The sum of a transaction's legs within one currency. */
  function CurrencySum(accounts: Accounts, entries: seq<Entry>, c: Currency): int
    requires Known(accounts, entries)
  {
    if entries == [] then 0
    else
      var last := entries[|entries| - 1];
      CurrencySum(accounts, entries[..|entries| - 1], c)
      + (if accounts[last.account].currency == c then last.amount else 0)
  }

  predicate Balanced(accounts: Accounts, entries: seq<Entry>)
    requires Known(accounts, entries)
  {
    forall c :: CurrencySum(accounts, entries, c) == 0
  }

  predicate CanPost(account: Account, delta: int) {
    FitsI64(account.balance + delta) && (account.balance + delta >= 0 || account.owner.External?)
  }

  /** Exactly the transactions the ledger takes. */
  predicate Acceptable(accounts: Accounts, entries: seq<Entry>) {
    && Known(accounts, entries)
    && Balanced(accounts, entries)
    && (forall a :: a in Touched(entries) ==> CanPost(accounts[a], Delta(entries, a)))
  }

  lemma {:induction false} UntouchedDelta(entries: seq<Entry>, a: AccountId)
    requires a !in Touched(entries)
    ensures Delta(entries, a) == 0
  {
    if entries != [] {
      var init := entries[..|entries| - 1];
      assert Touched(init) <= Touched(entries) by {
        forall b | b in Touched(init) ensures b in Touched(entries) {
          var i :| 0 <= i < |init| && init[i].account == b;
          assert entries[i].account == b;
        }
      }
      assert entries[|entries| - 1].account in Touched(entries);
      UntouchedDelta(init, a);
    }
  }

  function Posted(accounts: Accounts, entries: seq<Entry>): (posted: Accounts)
    requires Acceptable(accounts, entries)
    ensures posted.Keys == accounts.Keys
    ensures forall a :: a in accounts ==>
              && posted[a].owner == accounts[a].owner
              && posted[a].currency == accounts[a].currency
              && posted[a].balance == accounts[a].balance + Delta(entries, a)
  {
    assert forall a :: a in accounts ==> FitsI64(accounts[a].balance + Delta(entries, a)) by {
      forall a | a in accounts ensures FitsI64(accounts[a].balance + Delta(entries, a)) {
        if a !in Touched(entries) { UntouchedDelta(entries, a); }
      }
    }
    map a | a in accounts :: accounts[a].(balance := accounts[a].balance + Delta(entries, a))
  }

  /** A refusal names something that is really wrong, in the order the ledger checks. */
  predicate Justified(accounts: Accounts, entries: seq<Entry>, e: LedgerError) {
    match e
    case UnknownAccount => !Known(accounts, entries)
    case UnbalancedCurrency(c, sum) =>
      Known(accounts, entries) && sum != 0 && CurrencySum(accounts, entries, c) == sum
    case LedgerOverflow =>
      && Known(accounts, entries)
      && Balanced(accounts, entries)
      && exists a :: a in Touched(entries) && !FitsI64(accounts[a].balance + Delta(entries, a))
    case InsufficientFunds(a) =>
      && Known(accounts, entries)
      && Balanced(accounts, entries)
      && a in Touched(entries)
      && accounts[a].balance + Delta(entries, a) < 0
      && !accounts[a].owner.External?
    case _ => false
  }

  // ---------------------------------------------------------------- order of legs

  lemma {:induction false} DeltaAppend(left: seq<Entry>, right: seq<Entry>, a: AccountId)
    ensures Delta(left + right, a) == Delta(left, a) + Delta(right, a)
    decreases |right|
  {
    if right == [] {
      assert left + right == left;
    } else {
      var init := right[..|right| - 1];
      assert (left + right)[..|left + right| - 1] == left + init;
      DeltaAppend(left, init, a);
    }
  }

  lemma SingleDelta(e: Entry, a: AccountId)
    ensures Delta([e], a) == if e.account == a then e.amount else 0
  {
    assert [e][..0] == [];
  }

  /** One leg can be taken out from anywhere. */
  lemma TakeOut(ys: seq<Entry>, e: Entry, a: AccountId) returns (rest: seq<Entry>)
    requires e in ys
    ensures multiset(rest) == multiset(ys) - multiset{e} && |rest| == |ys| - 1
    ensures Delta(ys, a) == Delta(rest, a) + (if e.account == a then e.amount else 0)
  {
    var i :| 0 <= i < |ys| && ys[i] == e;
    var left, right := ys[..i], ys[i + 1..];
    rest := left + right;
    assert ys == left + [e] + right;
    DeltaAppend(left + [e], right, a);
    DeltaAppend(left, [e], a);
    DeltaAppend(left, right, a);
    SingleDelta(e, a);
  }

  /** Legs may come in any order: every account receives the same total. */
  lemma {:induction false} DeltaIgnoresOrder(xs: seq<Entry>, ys: seq<Entry>, a: AccountId)
    requires multiset(xs) == multiset(ys)
    ensures Delta(xs, a) == Delta(ys, a)
    decreases |xs|
  {
    if xs == [] {
      assert |multiset(ys)| == 0;
    } else {
      var e, init := xs[|xs| - 1], xs[..|xs| - 1];
      assert xs == init + [e];
      assert e in multiset(ys);
      var rest := TakeOut(ys, e, a);
      assert multiset(init) == multiset(xs) - multiset{e};
      DeltaIgnoresOrder(init, rest, a);
    }
  }

  /** The family of an account's currency totals, as maps to be summed. */
  ghost function DeltaFamily(accounts: Accounts, entries: seq<Entry>, c: Currency): map<AccountId, int> {
    map a | a in accounts && accounts[a].currency == c :: Delta(entries, a)
  }

  /** Summing leg by leg and summing account by account agree. */
  lemma {:induction false} CurrencySumByAccount(accounts: Accounts, entries: seq<Entry>, c: Currency)
    requires Known(accounts, entries)
    ensures Sum(DeltaFamily(accounts, entries, c)) == CurrencySum(accounts, entries, c)
    decreases |entries|
  {
    var family := DeltaFamily(accounts, entries, c);
    if entries == [] {
      SumZero(family);
    } else {
      var init, last := entries[..|entries| - 1], entries[|entries| - 1];
      CurrencySumByAccount(accounts, init, c);
      var before := DeltaFamily(accounts, init, c);
      if accounts[last.account].currency == c {
        SumUpdate(before, last.account, before[last.account] + last.amount);
        assert family == before[last.account := before[last.account] + last.amount];
      } else {
        assert family == before;
      }
    }
  }

  lemma CurrencySumIgnoresOrder(accounts: Accounts, xs: seq<Entry>, ys: seq<Entry>, c: Currency)
    requires multiset(xs) == multiset(ys)
    requires Known(accounts, xs) && Known(accounts, ys)
    ensures CurrencySum(accounts, xs, c) == CurrencySum(accounts, ys, c)
  {
    CurrencySumByAccount(accounts, xs, c);
    CurrencySumByAccount(accounts, ys, c);
    forall a | a in accounts ensures Delta(xs, a) == Delta(ys, a) { DeltaIgnoresOrder(xs, ys, a); }
    assert DeltaFamily(accounts, xs, c) == DeltaFamily(accounts, ys, c);
  }

  lemma SameEntries(xs: seq<Entry>, ys: seq<Entry>)
    requires multiset(xs) == multiset(ys)
    ensures forall i :: 0 <= i < |xs| ==> xs[i] in ys
  {
    forall i | 0 <= i < |xs| ensures xs[i] in ys {
      assert xs[i] in multiset(xs);
      assert xs[i] in multiset(ys);
    }
  }

  /** Acceptance and the resulting balances do not depend on the order of the legs. */
  lemma OrderIsIrrelevant(accounts: Accounts, xs: seq<Entry>, ys: seq<Entry>)
    requires multiset(xs) == multiset(ys)
    ensures Acceptable(accounts, xs) ==>
              Acceptable(accounts, ys) && Posted(accounts, xs) == Posted(accounts, ys)
  {
    if Acceptable(accounts, xs) {
      SameEntries(ys, xs);
      assert Known(accounts, ys) by {
        forall i | 0 <= i < |ys| ensures ys[i].account in accounts {
          var j :| 0 <= j < |xs| && xs[j] == ys[i];
        }
      }
      forall c ensures CurrencySum(accounts, ys, c) == 0 { CurrencySumIgnoresOrder(accounts, xs, ys, c); }
      forall a ensures Delta(xs, a) == Delta(ys, a) { DeltaIgnoresOrder(xs, ys, a); }
      forall a | a in Touched(ys) ensures CanPost(accounts[a], Delta(ys, a)) {
        var i :| 0 <= i < |ys| && ys[i].account == a;
        var j :| 0 <= j < |xs| && xs[j] == ys[i];
        assert a in Touched(xs);
      }
    }
  }

  // ---------------------------------------------------------------- invariants over runs

  ghost function BalanceFamily(accounts: Accounts, c: Currency): map<AccountId, int> {
    map a | a in accounts && accounts[a].currency == c :: accounts[a].balance
  }

  ghost function InternalFamily(accounts: Accounts, c: Currency): map<AccountId, int> {
    map a | a in accounts && accounts[a].currency == c && !accounts[a].owner.External? :: accounts[a].balance
  }

  predicate ExternalOf(accounts: Accounts, a: AccountId, c: Currency) {
    a in accounts && accounts[a].owner.External? && accounts[a].currency == c
  }

  ghost predicate OneExternal(accounts: Accounts) {
    forall a, b, c :: ExternalOf(accounts, a, c) && ExternalOf(accounts, b, c) ==> a == b
  }

  /** There is one contra account, one withholding, one suspense and one bonus reserve account per currency. */
  ghost predicate OneOfAKind(accounts: Accounts) {
    forall a, b :: a in accounts && b in accounts && accounts[a].currency == accounts[b].currency
      && accounts[a].owner == accounts[b].owner
      && accounts[a].owner in {External, Withheld, DepositSuspense, BonusReserve}
      ==> a == b
  }

  ghost predicate SoundLedger(accounts: Accounts) {
    && (forall c :: Sum(BalanceFamily(accounts, c)) == 0)
    && (forall a :: a in accounts && !accounts[a].owner.External? ==> accounts[a].balance >= 0)
    && OneExternal(accounts)
  }

  lemma PostingStaysSound(accounts: Accounts, entries: seq<Entry>)
    requires SoundLedger(accounts) && Acceptable(accounts, entries)
    ensures SoundLedger(Posted(accounts, entries))
  {
    var posted := Posted(accounts, entries);
    forall c ensures Sum(BalanceFamily(posted, c)) == 0 {
      CurrencySumByAccount(accounts, entries, c);
      SumAdd(BalanceFamily(accounts, c), DeltaFamily(accounts, entries, c), BalanceFamily(posted, c));
    }
    forall a | a in posted && !posted[a].owner.External? ensures posted[a].balance >= 0 {
      if a !in Touched(entries) { UntouchedDelta(entries, a); }
    }
    forall a, b, c | ExternalOf(posted, a, c) && ExternalOf(posted, b, c) ensures a == b {
      assert ExternalOf(accounts, a, c) && ExternalOf(accounts, b, c);
    }
  }

  /** Opening is a no-op for an open id and refuses a second External or money singleton. */
  ghost function OpenSpec(accounts: Accounts, id: AccountId, owner: OwnerType, currency: Currency)
    : Result<Accounts, LedgerError>
  {
    if id in accounts then Ok(accounts)
    else if owner.External? && exists a :: ExternalOf(accounts, a, currency)
    then Err(DuplicateExternal(currency))
    else if owner.IsMoneySingleton()
         && exists a :: a in accounts && accounts[a].owner == owner && accounts[a].currency == currency
    then Err(DuplicateSingleton(owner, currency))
    else Ok(accounts[id := Account(owner, currency, 0)])
  }

  /** A new account is refused exactly for a second one of its kind in the currency; a repeated opening never is. */
  lemma OpeningIsRefusedIff(accounts: Accounts, id: AccountId, owner: OwnerType, currency: Currency)
    ensures OpenSpec(accounts, id, owner, currency).Err?
       <==> && id !in accounts && owner in {External, Withheld, DepositSuspense, BonusReserve}
            && exists a :: a in accounts && accounts[a].owner == owner && accounts[a].currency == currency
    ensures id in accounts ==> OpenSpec(accounts, id, owner, currency) == Ok(accounts)
    ensures OneOfAKind(accounts) && OpenSpec(accounts, id, owner, currency).Ok? ==>
              OneOfAKind(OpenSpec(accounts, id, owner, currency).value)
  {
    if exists a :: a in accounts && accounts[a].owner == owner && accounts[a].currency == currency {
      var a :| a in accounts && accounts[a].owner == owner && accounts[a].currency == currency;
      if owner.External? { assert ExternalOf(accounts, a, currency); }
    }
  }

  lemma OpeningKeepsOneExternal(accounts: Accounts, id: AccountId, owner: OwnerType, currency: Currency)
    requires OneExternal(accounts) && id !in accounts
    requires !(owner.External? && exists a :: ExternalOf(accounts, a, currency))
    ensures OneExternal(accounts[id := Account(owner, currency, 0)])
  {
    var grown := accounts[id := Account(owner, currency, 0)];
    forall a, b, c | ExternalOf(grown, a, c) && ExternalOf(grown, b, c) ensures a == b {
      assert a != id ==> ExternalOf(accounts, a, c);
      assert b != id ==> ExternalOf(accounts, b, c);
    }
  }

  lemma OpeningStaysSound(accounts: Accounts, id: AccountId, owner: OwnerType, currency: Currency)
    requires SoundLedger(accounts)
    requires OpenSpec(accounts, id, owner, currency).Ok?
    ensures SoundLedger(OpenSpec(accounts, id, owner, currency).value)
  {
    if id !in accounts {
      OpeningKeepsOneExternal(accounts, id, owner, currency);
      var grown := OpenSpec(accounts, id, owner, currency).value;
      forall c ensures Sum(BalanceFamily(grown, c)) == 0 { OpeningMovesNothing(accounts, id, owner, currency, c); }
    }
  }

  lemma OpeningMovesNothing(accounts: Accounts, id: AccountId, owner: OwnerType, currency: Currency, c: Currency)
    requires id !in accounts
    ensures Sum(BalanceFamily(accounts[id := Account(owner, currency, 0)], c)) == Sum(BalanceFamily(accounts, c))
  {
    var grown := accounts[id := Account(owner, currency, 0)];
    if c == currency {
      SumUpdate(BalanceFamily(accounts, c), id, 0);
      assert BalanceFamily(grown, c) == BalanceFamily(accounts, c)[id := 0];
    } else {
      assert BalanceFamily(grown, c) == BalanceFamily(accounts, c);
    }
  }

  // ---------------------------------------------------------------- accounts opened on first use

  /** The kind of account each owner has. */
  function TypeOf(owner: OwnerRef): OwnerType {
    match owner
    case UserRef(_) => User
    case MarketEscrow(_) => Escrow
    case MarketPool(_) => Pool
    case FeesRef => Fees
    case HouseRef => House
    case ExternalRef => External
    case WithheldRef => Withheld
    case SuspenseRef => DepositSuspense
    case BonusReserveRef => BonusReserve
  }

  /** The store files every account under its owner and currency. */
  ghost predicate Filed(accounts: Accounts) {
    forall a :: a in accounts ==> accounts[a].owner == TypeOf(a.owner) && accounts[a].currency == a.currency
  }

  /** The account of an owner, opened empty if it is not there yet. */
  function WithAccount(accounts: Accounts, a: AccountId): (r: Accounts)
    ensures a in r && accounts.Keys <= r.Keys
    ensures forall b :: b in accounts ==> r[b] == accounts[b]
    ensures a !in accounts ==> r[a].balance == 0
  {
    if a in accounts then accounts else accounts[a := Account(TypeOf(a.owner), a.currency, 0)]
  }

  /** In a filed ledger opening on first use is never refused. */
  lemma FirstUseOpens(accounts: Accounts, a: AccountId)
    requires Filed(accounts)
    ensures OpenSpec(accounts, a, TypeOf(a.owner), a.currency) == Ok(WithAccount(accounts, a))
    ensures Filed(WithAccount(accounts, a))
  {
  }

  lemma FirstUseStaysSound(accounts: Accounts, a: AccountId)
    requires Filed(accounts) && SoundLedger(accounts)
    ensures Filed(WithAccount(accounts, a)) && SoundLedger(WithAccount(accounts, a))
  {
    FirstUseOpens(accounts, a);
    OpeningStaysSound(accounts, a, TypeOf(a.owner), a.currency);
  }

  lemma PostingStaysFiled(accounts: Accounts, entries: seq<Entry>)
    requires Filed(accounts) && Acceptable(accounts, entries)
    ensures Filed(Posted(accounts, entries))
  {
  }

  datatype Op = Open(id: AccountId, owner: OwnerType, currency: Currency) | Apply(entries: seq<Entry>)

  /** One call; a rejected call leaves the accounts as they were. */
  ghost function Next(accounts: Accounts, op: Op): Accounts {
    match op
    case Open(id, owner, currency) =>
      var r := OpenSpec(accounts, id, owner, currency);
      if r.Ok? then r.value else accounts
    case Apply(entries) =>
      if WellFormed(entries) && Acceptable(accounts, entries) then Posted(accounts, entries) else accounts
  }

  ghost function Run(ops: seq<Op>): Accounts {
    if ops == [] then map[] else Next(Run(ops[..|ops| - 1]), ops[|ops| - 1])
  }

  /** Every ledger grown from the empty one is balanced, and no internal account is overdrawn. */
  lemma {:induction false} EveryRunIsSound(ops: seq<Op>)
    ensures SoundLedger(Run(ops))
  {
    if ops == [] {
      forall c ensures Sum(BalanceFamily(Run(ops), c)) == 0 { SumZero(BalanceFamily(Run(ops), c)); }
    } else {
      var before, op := Run(ops[..|ops| - 1]), ops[|ops| - 1];
      EveryRunIsSound(ops[..|ops| - 1]);
      match op
      case Open(id, owner, currency) =>
        if OpenSpec(before, id, owner, currency).Ok? { OpeningStaysSound(before, id, owner, currency); }
      case Apply(entries) =>
        if WellFormed(entries) && Acceptable(before, entries) { PostingStaysSound(before, entries); }
    }
  }

  lemma {:induction false} EveryRunHasOneOfAKind(ops: seq<Op>)
    ensures OneOfAKind(Run(ops))
  {
    if ops != [] {
      var before, op := Run(ops[..|ops| - 1]), ops[|ops| - 1];
      EveryRunHasOneOfAKind(ops[..|ops| - 1]);
      if op.Open? { OpeningIsRefusedIff(before, op.id, op.owner, op.currency); }
    }
  }

  // ---------------------------------------------------------------- the contra account

  /** The internal sum, saturated at the largest 64-bit value as the source returns it. */
  ghost function InternalTotal(accounts: Accounts, c: Currency): int {
    var sum := Sum(InternalFamily(accounts, c));
    if FitsI64(sum) then sum else I64_MAX
  }

  lemma InternalMirrorsExternal(accounts: Accounts, ext: AccountId)
    requires SoundLedger(accounts)
    requires ext in accounts && accounts[ext].owner.External?
    ensures Sum(InternalFamily(accounts, accounts[ext].currency)) == 0 - accounts[ext].balance
  {
    var c := accounts[ext].currency;
    SumPick(BalanceFamily(accounts, c), ext);
    assert ExternalOf(accounts, ext, c);
    forall a | a in accounts && accounts[a].owner.External? && accounts[a].currency == c ensures a == ext {
      assert ExternalOf(accounts, a, c);
    }
    assert BalanceFamily(accounts, c) - {ext} == InternalFamily(accounts, c);
  }

  /**
   The reported internal total mirrors the External account in every sound
   ledger, except exactly when External stands at the smallest 64-bit value.
   */
  lemma InternalTotalMirrorsExternal(accounts: Accounts, ext: AccountId)
    requires SoundLedger(accounts)
    requires ext in accounts && accounts[ext].owner.External?
    ensures InternalTotal(accounts, accounts[ext].currency) == 0 - accounts[ext].balance
            <==> accounts[ext].balance != I64_MIN
  {
    var c := accounts[ext].currency;
    InternalMirrorsExternal(accounts, ext);
    SumNonNegative(InternalFamily(accounts, c));
  }

  lemma RunThen(ops: seq<Op>, op: Op)
    ensures Run(ops + [op]) == Next(Run(ops), op)
  {
    assert (ops + [op])[..|ops|] == ops;
  }

  /** A deposit from an External account is taken as long as both balances fit. */
  lemma DepositIsTaken(accounts: Accounts, ext: AccountId, user: AccountId, amount: I64)
    requires ext != user && ExternalOf(accounts, ext, Usdc) && user in accounts && accounts[user].currency == Usdc
    requires 0 < amount && FitsI64(accounts[ext].balance - amount)
    requires 0 <= accounts[user].balance && FitsI64(accounts[user].balance + amount)
    ensures var op := Apply([Entry(ext, 0 - amount), Entry(user, amount)]);
            Next(accounts, op) == accounts[ext := accounts[ext].(balance := accounts[ext].balance - amount)]
                                          [user := accounts[user].(balance := accounts[user].balance + amount)]
  {
    var out, into := Entry(ext, 0 - amount), Entry(user, amount);
    var entries := [out, into];
    assert entries[..1] == [out] && entries[..1][..0] == [];
    assert entries == [out] + [into];
    forall a ensures Delta(entries, a) == if a == ext then 0 - amount else if a == user then amount else 0 {
      DeltaAppend([out], [into], a);
      SingleDelta(out, a);
      SingleDelta(into, a);
    }
    forall c ensures CurrencySum(accounts, entries, c) == 0 {
      assert CurrencySum(accounts, [out], c) == if c == Usdc then 0 - amount else 0;
    }
    assert EntrySum([out]) == 0 - amount;
    assert Next(accounts, Apply(entries)) == Posted(accounts, entries);
  }

  lemma OpenedUsers(ext: AccountId, one: AccountId, two: AccountId)
    requires ext != one && ext != two && one != two
    ensures Run([Open(ext, External, Usdc), Open(one, User, Usdc), Open(two, User, Usdc)])
         == map[ext := Account(External, Usdc, 0), one := Account(User, Usdc, 0), two := Account(User, Usdc, 0)]
  {
    var a, b, c := Open(ext, External, Usdc), Open(one, User, Usdc), Open(two, User, Usdc);
    OpenThen([], ext, External);
    assert [] + [a] == [a];
    OpenThen([a], one, User);
    assert [a] + [b] == [a, b];
    OpenThen([a, b], two, User);
    assert [a, b] + [c] == [a, b, c];
  }

  lemma OpenThen(ops: seq<Op>, id: AccountId, owner: OwnerType)
    requires id !in Run(ops) && !owner.IsMoneySingleton() && (owner.External? ==> Run(ops) == map[])
    ensures Run(ops + [Open(id, owner, Usdc)]) == Run(ops)[id := Account(owner, Usdc, 0)]
  {
    RunThen(ops, Open(id, owner, Usdc));
  }

  /** The saturating case is reachable: deposits can drive External to the smallest value. */
  lemma SaturationIsReachable() returns (ops: seq<Op>, ext: AccountId)
    ensures ext in Run(ops) && Run(ops)[ext] == Account(External, Usdc, I64_MIN)
    ensures InternalTotal(Run(ops), Usdc) == I64_MAX != 0 - Run(ops)[ext].balance
  {
    ext := AccountId(ExternalRef, Usdc);
    var one, two := AccountId(UserRef(1), Usdc), AccountId(UserRef(2), Usdc);
    var half: I64 := 0x4000_0000_0000_0000;
    var opening := [Open(ext, External, Usdc), Open(one, User, Usdc), Open(two, User, Usdc)];
    OpenedUsers(ext, one, two);
    var first := Apply([Entry(ext, 0 - half), Entry(one, half)]);
    var second := Apply([Entry(ext, 0 - half), Entry(two, half)]);
    RunThen(opening, first);
    DepositIsTaken(Run(opening), ext, one, half);
    RunThen(opening + [first], second);
    DepositIsTaken(Run(opening + [first]), ext, two, half);
    ops := opening + [first] + [second];
    EveryRunIsSound(ops);
    InternalMirrorsExternal(Run(ops), ext);
  }

  /**
   Moving money between internal accounts cannot overflow a balance, unless the
   whole currency has reached the width of the balances.
   */
  lemma InternalBalanceFits(accounts: Accounts, entries: seq<Entry>, ext: AccountId, a: AccountId)
    requires SoundLedger(accounts) && Known(accounts, entries)
    requires ext in accounts && accounts[ext].owner.External? && accounts[ext].balance > I64_MIN
    requires ext !in Touched(entries)
    requires a in accounts && a != ext && accounts[a].currency == accounts[ext].currency
    requires CurrencySum(accounts, entries, accounts[ext].currency) == 0
    requires forall b :: b in Touched(entries) ==> accounts[b].balance + Delta(entries, b) >= 0
    ensures FitsI64(accounts[a].balance + Delta(entries, a))
  {
    var c := accounts[ext].currency;
    var balances, deltas := BalanceFamily(accounts, c), DeltaFamily(accounts, entries, c);
    var after := map b | b in balances :: balances[b] + deltas[b];
    CurrencySumByAccount(accounts, entries, c);
    SumAdd(balances, deltas, after);
    SumPick(after, ext);
    UntouchedDelta(entries, ext);
    var rest := after - {ext};
    assert ExternalOf(accounts, ext, c);
    forall b | b in rest ensures rest[b] >= 0 {
      assert !ExternalOf(accounts, b, c);
      if b !in Touched(entries) { UntouchedDelta(entries, b); }
    }
    SumDominates(rest, a);
  }

  // ---------------------------------------------------------------- the balance map

  /** Loop measure of the second pass: what the visited accounts add to one currency. */
  ghost function VisitedFamily(accounts: Accounts, deltas: map<AccountId, int>, todo: set<AccountId>, c: Currency)
    : map<AccountId, int>
  {
    map a | a in deltas && a !in todo && a in accounts && accounts[a].currency == c :: deltas[a]
  }

  lemma VisitOne(accounts: Accounts, deltas: map<AccountId, int>, todo: set<AccountId>, a: AccountId, c: Currency)
    requires a in todo && a in deltas && a in accounts
    ensures Sum(VisitedFamily(accounts, deltas, todo - {a}, c))
         == Sum(VisitedFamily(accounts, deltas, todo, c)) + (if accounts[a].currency == c then deltas[a] else 0)
  {
    var before, after := VisitedFamily(accounts, deltas, todo, c), VisitedFamily(accounts, deltas, todo - {a}, c);
    if accounts[a].currency == c {
      SumUpdate(before, a, deltas[a]);
      assert after == before[a := deltas[a]];
    } else {
      assert after == before;
    }
  }

  /** Once every touched account is visited, the running sum is the transaction's currency sum. */
  lemma VisitedAll(accounts: Accounts, entries: seq<Entry>, deltas: map<AccountId, int>, c: Currency)
    requires Known(accounts, entries)
    requires deltas.Keys == Touched(entries)
    requires forall a :: a in deltas ==> deltas[a] == Delta(entries, a)
    ensures Sum(VisitedFamily(accounts, deltas, {}, c)) == CurrencySum(accounts, entries, c)
  {
    CurrencySumByAccount(accounts, entries, c);
    var family, visited := DeltaFamily(accounts, entries, c), VisitedFamily(accounts, deltas, {}, c);
    forall a | a in family && a !in visited ensures family[a] == 0 { UntouchedDelta(entries, a); }
    SumWithoutZeros(family, visited);
  }

  class Balances {
    var accounts: Accounts

    constructor ()
      ensures accounts == map[]
    {
      accounts := map[];
    }

    method OpenAccount(id: AccountId, owner: OwnerType, currency: Currency) returns (r: Result<(), LedgerError>)
      modifies this
      ensures r.Ok? <==> OpenSpec(old(accounts), id, owner, currency).Ok?
      ensures r.Ok? ==> accounts == OpenSpec(old(accounts), id, owner, currency).value
      ensures r.Err? ==> accounts == old(accounts) && r.error == OpenSpec(old(accounts), id, owner, currency).error
    {
      if id in accounts { return Ok(()); }
      if owner.External? && exists a :: a in accounts.Keys && ExternalOf(accounts, a, currency) {
        return Err(DuplicateExternal(currency));
      }
      if owner.IsMoneySingleton()
        && exists a :: a in accounts.Keys && accounts[a].owner == owner && accounts[a].currency == currency {
        return Err(DuplicateSingleton(owner, currency));
      }
      accounts := accounts[id := Account(owner, currency, 0)];
      return Ok(());
    }

    /** Looks an account up, opening it empty on first use. */
    method FindAccount(id: AccountId)
      requires Filed(accounts)
      modifies this
      ensures Filed(accounts) && accounts == WithAccount(old(accounts), id)
    {
      FirstUseOpens(accounts, id);
      var opening := OpenAccount(id, TypeOf(id.owner), id.currency);
    }

    /** First pass: one running delta per account, however often a transaction names it. */
    method Aggregate(entries: seq<Entry>) returns (deltas: map<AccountId, int>)
      ensures deltas.Keys == Touched(entries)
      ensures forall a :: a in deltas ==> deltas[a] == Delta(entries, a)
    {
      deltas := map[];
      for i := 0 to |entries|
        invariant deltas.Keys == Touched(entries[..i])
        invariant forall a :: a in deltas ==> deltas[a] == Delta(entries[..i], a)
      {
        var e := entries[i];
        assert entries[..i + 1][..i] == entries[..i];
        if e.account !in deltas { UntouchedDelta(entries[..i], e.account); }
        assert Touched(entries[..i + 1]) == Touched(entries[..i]) + {e.account};
        deltas := deltas[e.account := (if e.account in deltas then deltas[e.account] else 0) + e.amount];
      }
      assert entries[..|entries|] == entries;
    }

    /** Second pass: every account is open and every touched currency balances. */
    method CheckCurrencies(ghost entries: seq<Entry>, deltas: map<AccountId, int>) returns (r: Result<(), LedgerError>)
      requires deltas.Keys == Touched(entries)
      requires forall a :: a in deltas ==> deltas[a] == Delta(entries, a)
      ensures r.Ok? <==> Known(accounts, entries) && Balanced(accounts, entries)
      ensures r.Err? ==> Justified(accounts, entries, r.error)
    {
      var perCurrency: map<Currency, int> := map[];
      var todo := deltas.Keys;
      forall c ensures Sum(VisitedFamily(accounts, deltas, todo, c)) == 0 {
        SumZero(VisitedFamily(accounts, deltas, todo, c));
      }
      while todo != {}
        invariant todo <= deltas.Keys
        invariant forall a :: a in deltas && a !in todo ==> a in accounts
        invariant forall c :: Sum(VisitedFamily(accounts, deltas, todo, c))
                           == if c in perCurrency then perCurrency[c] else 0
        decreases todo
      {
        var a :| a in todo;
        if a !in accounts {
          ghost var i :| 0 <= i < |entries| && entries[i].account == a;
          return Err(UnknownAccount);
        }
        var c := accounts[a].currency;
        forall c ensures Sum(VisitedFamily(accounts, deltas, todo - {a}, c))
                      == Sum(VisitedFamily(accounts, deltas, todo, c))
                       + (if accounts[a].currency == c then deltas[a] else 0)
        {
          VisitOne(accounts, deltas, todo, a, c);
        }
        perCurrency := perCurrency[c := (if c in perCurrency then perCurrency[c] else 0) + deltas[a]];
        todo := todo - {a};
      }
      forall i | 0 <= i < |entries| ensures entries[i].account in accounts {
        assert entries[i].account in Touched(entries);
      }
      forall c ensures CurrencySum(accounts, entries, c) == if c in perCurrency then perCurrency[c] else 0 {
        VisitedAll(accounts, entries, deltas, c);
      }
      var left := perCurrency.Keys;
      while left != {}
        invariant left <= perCurrency.Keys
        invariant forall c :: c in perCurrency && c !in left ==> perCurrency[c] == 0
        decreases left
      {
        var c :| c in left;
        assert CurrencySum(accounts, entries, c) == perCurrency[c];
        if perCurrency[c] != 0 { return Err(UnbalancedCurrency(c, perCurrency[c])); }
        left := left - {c};
      }
      return Ok(());
    }

    /** Third pass: every post-balance, checked before anything is written. */
    method ComputePosts(ghost entries: seq<Entry>, deltas: map<AccountId, int>)
      returns (r: Result<map<AccountId, I64>, LedgerError>)
      requires deltas.Keys == Touched(entries)
      requires forall a :: a in deltas ==> deltas[a] == Delta(entries, a)
      requires Known(accounts, entries) && Balanced(accounts, entries)
      ensures r.Ok? <==> Acceptable(accounts, entries)
      ensures r.Ok? ==> r.value.Keys == Touched(entries)
      ensures r.Ok? ==>
        forall a :: a in r.value ==> a in accounts && r.value[a] == accounts[a].balance + Delta(entries, a)
      ensures r.Err? ==> Justified(accounts, entries, r.error)
    {
      var posts: map<AccountId, I64> := map[];
      var todo := deltas.Keys;
      while todo != {}
        invariant todo <= deltas.Keys
        invariant posts.Keys == deltas.Keys - todo
        invariant forall a :: a in posts ==>
                    && a in accounts
                    && CanPost(accounts[a], Delta(entries, a))
                    && posts[a] == accounts[a].balance + Delta(entries, a)
        decreases todo
      {
        var a :| a in todo;
        var post := accounts[a].balance + deltas[a];
        if !FitsI64(post) { return Err(LedgerOverflow); }
        if post < 0 && !accounts[a].owner.External? { return Err(InsufficientFunds(a)); }
        posts := posts[a := post];
        todo := todo - {a};
      }
      return Ok(posts);
    }

    /**
     Applies a transaction atomically, whatever order the accounts are visited
     in: taken exactly when acceptable, and then posted in full; otherwise
     refused with a true reason and nothing written.
     */
    method ApplyTransaction(entries: seq<Entry>) returns (r: Result<(), LedgerError>)
      modifies this
      ensures r.Ok? <==> Acceptable(old(accounts), entries)
      ensures r.Ok? ==> accounts == Posted(old(accounts), entries)
      ensures r.Err? ==> accounts == old(accounts) && Justified(old(accounts), entries, r.error)
    {
      var deltas := Aggregate(entries);
      var checked := CheckCurrencies(entries, deltas);
      if checked.Err? { return Err(checked.error); }
      var posts := ComputePosts(entries, deltas);
      if posts.Err? { return Err(posts.error); }
      ghost var target := Posted(accounts, entries);
      var todo := posts.value.Keys;
      while todo != {}
        invariant todo <= posts.value.Keys
        invariant accounts.Keys == old(accounts).Keys
        invariant forall a :: a in accounts ==>
                    accounts[a] == if a in posts.value && a !in todo then target[a] else old(accounts)[a]
        decreases todo
      {
        var a :| a in todo;
        accounts := accounts[a := accounts[a].(balance := posts.value[a])];
        todo := todo - {a};
      }
      forall a | a in accounts ensures accounts[a] == target[a] {
        if a !in posts.value { UntouchedDelta(entries, a); }
      }
      return Ok(());
    }

    /** The fold over internal accounts, saturating as the source's conversion does. */
    method ReportInternalTotal(c: Currency) returns (r: I64)
      ensures r == InternalTotal(accounts, c)
    {
      var sum := 0;
      var todo := accounts.Keys;
      ghost var family := InternalFamily(accounts, c);
      ghost var seen: map<AccountId, int> := map[];
      SumZero(seen);
      while todo != {}
        invariant todo <= accounts.Keys
        invariant seen == map a | a in family && a !in todo :: family[a]
        invariant sum == Sum(seen)
        decreases todo
      {
        var a :| a in todo;
        if accounts[a].currency == c && !accounts[a].owner.External? {
          SumUpdate(seen, a, accounts[a].balance);
          sum := sum + accounts[a].balance;
          seen := seen[a := accounts[a].balance];
        }
        todo := todo - {a};
      }
      assert seen == family;
      r := if FitsI64(sum) then sum else I64_MAX;
    }
  }
}
