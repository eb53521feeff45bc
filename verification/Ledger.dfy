/** The account ledger: plain balances and, for each contract, sub-accounts with a balance and a
    frozen part, in 64-bit arithmetic. */
module Ledgers {
  type Addr = string

  const MAX_COIN := 100_000_000_000_000_000
  const MAX_TOKEN_BALANCE := 9_000_000_000_000_000_000
  const TWO_63 := 0x8000_0000_0000_0000
  const TWO_64 := 0x1_0000_0000_0000_0000

  datatype Account = Account(addr: Addr, balance: int, frozen: int)

  /** An account's key: a plain account, or the account of `addr` inside contract `exec`. */
  datatype Key = Plain(addr: Addr) | Sub(exec: Addr, addr: Addr)

  type Store = map<Key, Account>

  datatype Error = ErrAmount | ErrSendSameToRecv | ErrNoBalance | ErrNotAllowDeposit

  /** How a call ends: with the writes of its receipt, with an error, or by stopping the node. */
  datatype Outcome = Done(kvs: seq<(Key, Account)>) | Failed(error: Error) | Panicked

  datatype Result = Result(store: Store, outcome: Outcome)

  // ----- 64-bit arithmetic -----

  /** The value a 64-bit two's complement register keeps of `x`. */
  function Wrap(x: int): int {
    (x + TWO_63) % TWO_64 - TWO_63
  }

  lemma WrapInRange(x: int)
    requires -TWO_63 <= x < TWO_63
    ensures Wrap(x) == x
  {
  }

  predicate CheckAmount(amount: int) {
    !(amount <= 0 || amount >= MAX_COIN)
  }

  lemma CheckAmountExact(amount: int)
    ensures CheckAmount(amount) <==> 1 <= amount <= 99_999_999_999_999_999
  {
  }

  /** Checked addition; a false flag stands for ErrAmount. */
  function SafeAdd(balance: int, amount: int): (bool, int) {
    if Wrap(balance + amount) < amount || Wrap(balance + amount) > MAX_TOKEN_BALANCE then (false, balance)
    else (true, Wrap(balance + amount))
  }

  /** On 64-bit inputs with a non-negative balance, checked addition succeeds exactly when the true
      sum is within the bound, and then gives the true sum. */
  lemma SafeAddExact(balance: int, amount: int)
    requires 0 <= balance < TWO_63 && -TWO_63 <= amount < TWO_63
    ensures SafeAdd(balance, amount).0 <==> balance + amount <= MAX_TOKEN_BALANCE
    ensures SafeAdd(balance, amount).1 == if balance + amount <= MAX_TOKEN_BALANCE then balance + amount else balance
  {
    var x := balance + amount;
    if x < TWO_63 {
      WrapInRange(x);
    } else {
      assert (x + TWO_63) % TWO_64 == x - TWO_63;
    }
  }

  // ----- Keys as bytes -----

  predicate CleanAddr(a: Addr) {
    forall i :: 0 <= i < |a| ==> a[i] != '-' && a[i] != ':'
  }

  /** The database key of an account, for the asset whose accounts start with `prefix`. */
  function KeyBytes(prefix: string, k: Key): string {
    match k
    case Plain(a) => prefix + a
    case Sub(e, a) => prefix + "exec-" + e + ":" + a
  }

  predicate CleanKey(k: Key) {
    CleanAddr(k.addr) && (k.Sub? ==> CleanAddr(k.exec))
  }

  /** Two texts split at their first colon are equal only if both parts are. */
  lemma SplitAtColon(e1: Addr, a1: Addr, e2: Addr, a2: Addr)
    requires CleanAddr(e1) && CleanAddr(e2) && e1 + ":" + a1 == e2 + ":" + a2
    ensures e1 == e2 && a1 == a2
  {
    var s1, s2 := e1 + ":" + a1, e2 + ":" + a2;
    assert s1[|e1|] == ':' && forall i :: 0 <= i < |e1| ==> s1[i] != ':';
    assert s2[|e2|] == ':' && forall i :: 0 <= i < |e2| ==> s2[i] != ':';
    assert s1[..|e1|] == e1 && s2[..|e2|] == e2;
    assert s1[|e1| + 1..] == a1 && s2[|e2| + 1..] == a2;
  }

  lemma PlainIsNotSub(a: Addr, e: Addr, b: Addr)
    requires CleanAddr(a)
    ensures "" + a != "" + "exec-" + e + ":" + b
  {
    assert ("" + "exec-" + e + ":" + b)[4] == '-';
  }

  /** Different accounts have different keys, so the store can be seen as a map over `Key`. */
  lemma KeysInjective(prefix: string, k1: Key, k2: Key)
    requires CleanKey(k1) && CleanKey(k2) && KeyBytes(prefix, k1) == KeyBytes(prefix, k2)
    ensures k1 == k2
  {
    var t1, t2 := KeyBytes("", k1), KeyBytes("", k2);
    assert KeyBytes(prefix, k1) == prefix + t1 && KeyBytes(prefix, k2) == prefix + t2;
    assert t1 == (prefix + t1)[|prefix|..] && t2 == (prefix + t2)[|prefix|..];
    if k1.Sub? && k2.Sub? {
      var u1, u2 := k1.exec + ":" + k1.addr, k2.exec + ":" + k2.addr;
      assert t1 == "exec-" + u1 && t2 == "exec-" + u2;
      assert u1 == t1[5..] && u2 == t2[5..];
      SplitAtColon(k1.exec, k1.addr, k2.exec, k2.addr);
    } else {
      if k1.Sub? { PlainIsNotSub(k2.addr, k1.exec, k1.addr); }
      if k2.Sub? { PlainIsNotSub(k1.addr, k2.exec, k2.addr); }
    }
  }

  // ----- Operations -----

  function Load(s: Store, k: Key): Account {
    if k in s then s[k] else Account(k.addr, 0, 0)
  }

  function Fail(s: Store, e: Error): Result {
    Result(s, Failed(e))
  }

  /** Save plain accounts under their own addresses. */
  function SavePlain(s: Store, a: Account): Store {
    s[Plain(a.addr) := a]
  }

  function SaveSub(s: Store, exec: Addr, a: Account): Store {
    s[Sub(exec, a.addr) := a]
  }

  function Transfer(s: Store, from: Addr, to: Addr, amount: int): Result {
    if !CheckAmount(amount) then Fail(s, ErrAmount)
    else
      var f, t := Load(s, Plain(from)), Load(s, Plain(to));
      if f.addr == t.addr then Fail(s, ErrSendSameToRecv)
      else if Wrap(f.balance - amount) >= 0 then
        var f', t' := f.(balance := Wrap(f.balance - amount)), t.(balance := Wrap(t.balance + amount));
        Result(SavePlain(SavePlain(s, f'), t'), Done([(Plain(f.addr), f'), (Plain(t.addr), t')]))
      else Fail(s, ErrNoBalance)
  }

  function DepositBalance(s: Store, exec: Addr, amount: int): Result {
    if !CheckAmount(amount) then Fail(s, ErrAmount)
    else
      var a := Load(s, Plain(exec));
      var a' := a.(balance := Wrap(a.balance + amount));
      Result(SavePlain(s, a'), Done([(Plain(a.addr), a')]))
  }

  function CheckTransfer(s: Store, from: Addr, amount: int): Outcome {
    if !CheckAmount(amount) then Failed(ErrAmount)
    else if Wrap(Load(s, Plain(from)).balance - amount) < 0 then Failed(ErrNoBalance)
    else Done([])
  }

  function Mint(s: Store, addr: Addr, amount: int): Result {
    if !CheckAmount(amount) then Fail(s, ErrAmount)
    else
      var a := Load(s, Plain(addr));
      var (ok, balance) := SafeAdd(a.balance, amount);
      if !ok then Fail(s, ErrAmount)
      else Result(SavePlain(s, a.(balance := balance)), Done([(Plain(a.addr), a.(balance := balance))]))
  }

  function Burn(s: Store, addr: Addr, amount: int): Result {
    if !CheckAmount(amount) then Fail(s, ErrAmount)
    else
      var a := Load(s, Plain(addr));
      if a.balance < amount then Fail(s, ErrNoBalance)
      else
        var a' := a.(balance := Wrap(a.balance - amount));
        Result(SavePlain(s, a'), Done([(Plain(a.addr), a')]))
  }

  /** A transaction's fee; it goes to nobody. */
  function ProcessFee(s: Store, addr: Addr, fee: int): Result {
    var a := Load(s, Plain(addr));
    if Wrap(a.balance - fee) >= 0 then
      var a' := a.(balance := Wrap(a.balance - fee));
      Result(SavePlain(s, a'), Done([(Plain(a.addr), a')]))
    else Fail(s, ErrNoBalance)
  }

  /** Change one sub-account by `db` in balance and `df` in frozen. */
  function Shift(s: Store, exec: Addr, addr: Addr, db: int, df: int): Result {
    var a := Load(s, Sub(exec, addr));
    var a' := Account(a.addr, Wrap(a.balance + db), Wrap(a.frozen + df));
    Result(SaveSub(s, exec, a'), Done([(Sub(exec, a.addr), a')]))
  }

  function ExecFrozen(s: Store, addr: Addr, exec: Addr, amount: int): Result {
    if addr == exec then Fail(s, ErrSendSameToRecv)
    else if !CheckAmount(amount) then Fail(s, ErrAmount)
    else if Wrap(Load(s, Sub(exec, addr)).balance - amount) < 0 then Fail(s, ErrNoBalance)
    else Shift(s, exec, addr, -amount, amount)
  }

  function ExecActive(s: Store, addr: Addr, exec: Addr, amount: int): Result {
    if addr == exec then Fail(s, ErrSendSameToRecv)
    else if !CheckAmount(amount) then Fail(s, ErrAmount)
    else if Wrap(Load(s, Sub(exec, addr)).frozen - amount) < 0 then Fail(s, ErrNoBalance)
    else Shift(s, exec, addr, amount, -amount)
  }

  /** Move from a sub-account's balance, or from its frozen part, to another's balance. */
  function ExecMove(s: Store, from: Addr, to: Addr, exec: Addr, amount: int, frozen: bool): Result {
    if from == to then Fail(s, ErrSendSameToRecv)
    else if !CheckAmount(amount) then Fail(s, ErrAmount)
    else
      var f, t := Load(s, Sub(exec, from)), Load(s, Sub(exec, to));
      if Wrap((if frozen then f.frozen else f.balance) - amount) < 0 then Fail(s, ErrNoBalance)
      else
        var f' := if frozen then f.(frozen := Wrap(f.frozen - amount)) else f.(balance := Wrap(f.balance - amount));
        var t' := t.(balance := Wrap(t.balance + amount));
        Result(SaveSub(SaveSub(s, exec, f'), exec, t'), Done([(Sub(exec, f.addr), f'), (Sub(exec, t.addr), t')]))
  }

  function ExecDeposit(s: Store, addr: Addr, exec: Addr, amount: int): Result {
    if addr == exec then Fail(s, ErrSendSameToRecv)
    else if !CheckAmount(amount) then Fail(s, ErrAmount)
    else Shift(s, exec, addr, amount, 0)
  }

  function ExecWithdraw(s: Store, exec: Addr, addr: Addr, amount: int): Result {
    if addr == exec then Fail(s, ErrSendSameToRecv)
    else if !CheckAmount(amount) then Fail(s, ErrAmount)
    else if Wrap(Load(s, Sub(exec, addr)).balance - amount) < 0 then Fail(s, ErrNoBalance)
    else Shift(s, exec, addr, -amount, 0)
  }

  /** The second call follows the first; where the node panics on its failure, so does this. */
  function Then(first: Result, second: Result, panics: bool): Result {
    if !first.outcome.Done? then first
    else if second.outcome.Done? then Result(second.store, Done(first.outcome.kvs + second.outcome.kvs))
    else if panics then Result(second.store, Panicked)
    else second
  }

  function TransferToExec(s: Store, from: Addr, to: Addr, amount: int): Result {
    var r := Transfer(s, from, to, amount);
    Then(r, ExecDeposit(r.store, from, to, amount), true)
  }

  function TransferWithdraw(s: Store, from: Addr, to: Addr, amount: int): Result {
    var check := CheckTransfer(s, to, amount);
    if !check.Done? then Result(s, check)
    else
      var r := ExecWithdraw(s, to, from, amount);
      Then(r, Transfer(r.store, to, from, amount), true)
  }

  /** New coins for a contract that may issue them, credited to a user's frozen part. */
  function ExecDepositFrozen(s: Store, issuers: set<Addr>, addr: Addr, exec: Addr, amount: int): Result {
    if addr == exec then Fail(s, ErrSendSameToRecv)
    else if exec !in issuers then Fail(s, ErrNotAllowDeposit)
    else
      var r := DepositBalance(s, exec, amount);
      Then(r, if !CheckAmount(amount) then Fail(r.store, ErrAmount) else Shift(r.store, exec, addr, 0, amount), false)
  }

  function GenesisInit(s: Store, addr: Addr, amount: int): Result {
    var a := Load(s, Plain(addr));
    var (ok, balance) := SafeAdd(a.balance, amount);
    if !ok then Fail(s, ErrAmount)
    else Result(SavePlain(s, a.(balance := balance)), Done([(Plain(a.addr), a.(balance := balance))]))
  }

  function GenesisInitExec(s: Store, addr: Addr, amount: int, exec: Addr): Result {
    var r := GenesisInit(s, exec, amount);
    Then(r, ExecDeposit(r.store, addr, exec, amount), true)
  }

  // ----- Totals -----

  /** What is added up: all plain balances, or everything inside one contract. */
  datatype Scope = AllPlain | Inside(exec: Addr)

  function Share(c: Scope, k: Key, a: Account): int {
    match c
    case AllPlain => if k.Plain? then a.balance else 0
    case Inside(e) => if k.Sub? && k.exec == e then a.balance + a.frozen else 0
  }

  ghost function Total(s: Store, c: Scope): int {
    if s == map[] then 0
    else
      var k :| k in s;
      Share(c, k, s[k]) + Total(s - {k}, c)
  }

  lemma {:induction false} TotalWithout(s: Store, c: Scope, k: Key)
    requires k in s
    ensures Total(s, c) == Share(c, k, s[k]) + Total(s - {k}, c)
    decreases |s|
  {
    var k0 :| k0 in s && Total(s, c) == Share(c, k0, s[k0]) + Total(s - {k0}, c);
    if k0 != k {
      TotalWithout(s - {k0}, c, k);
      TotalWithout(s - {k}, c, k0);
      assert s - {k0} - {k} == s - {k} - {k0};
    }
  }

  /** Saving one account moves every total by that account's change. */
  lemma TotalSave(s: Store, c: Scope, k: Key, a: Account)
    ensures Total(s[k := a], c) == Total(s, c) + Share(c, k, a) - Share(c, k, Load(s, k))
  {
    TotalWithout(s[k := a], c, k);
    if k in s {
      TotalWithout(s, c, k);
      assert s[k := a] - {k} == s - {k};
    } else {
      assert s[k := a] - {k} == s;
    }
  }

  /** Accounts sit under their own address, hold no negative amounts, and contracts are in `contracts`. */
  ghost predicate Sound(s: Store, contracts: set<Addr>) {
    forall k :: k in s ==> SoundAt(k, s[k], contracts)
  }

  predicate SoundAt(k: Key, a: Account, contracts: set<Addr>) {
    a.addr == k.addr && 0 <= a.balance && 0 <= a.frozen && (k.Sub? ==> k.exec in contracts)
  }

  lemma {:induction false} TotalBounds(s: Store, contracts: set<Addr>, c: Scope, k: Key)
    requires Sound(s, contracts)
    ensures 0 <= Share(c, k, Load(s, k)) <= Total(s, c)
    decreases |s|
  {
    if k in s {
      TotalWithout(s, c, k);
      TotalBounds(s - {k}, contracts, c, k);
    } else if s != map[] {
      var k0 :| k0 in s;
      TotalWithout(s, c, k0);
      TotalBounds(s - {k0}, contracts, c, k);
    }
  }

  lemma {:induction false} NothingInside(s: Store, contracts: set<Addr>, e: Addr)
    requires Sound(s, contracts) && e !in contracts
    ensures Total(s, Inside(e)) == 0
    decreases |s|
  {
    if s != map[] {
      var k :| k in s;
      TotalWithout(s, Inside(e), k);
      NothingInside(s - {k}, contracts, e);
    }
  }

  /** Each contract's plain balance covers everything inside it. */
  ghost predicate Backed(s: Store) {
    forall e :: Total(s, Inside(e)) <= Load(s, Plain(e)).balance
  }

  ghost predicate Inv(s: Store, contracts: set<Addr>) {
    Sound(s, contracts) && Backed(s) && Total(s, AllPlain) <= MAX_TOKEN_BALANCE
  }

  // ----- One change of one account -----

  /** Changing a plain balance by `d`: nothing overflows, the plain total moves by `d`, and
      nothing inside a contract changes. */
  lemma PlainDelta(s: Store, contracts: set<Addr>, addr: Addr, d: int)
    requires Sound(s, contracts) && 0 <= Load(s, Plain(addr)).balance + d
    requires Total(s, AllPlain) + d <= MAX_TOKEN_BALANCE
    ensures Load(s, Plain(addr)).addr == addr
    ensures Wrap(Load(s, Plain(addr)).balance + d) == Load(s, Plain(addr)).balance + d
    ensures var s' := SavePlain(s, Load(s, Plain(addr)).(balance := Load(s, Plain(addr)).balance + d));
            && Sound(s', contracts)
            && Total(s', AllPlain) == Total(s, AllPlain) + d
            && (forall e :: Total(s', Inside(e)) == Total(s, Inside(e)))
            && (forall k :: k != Plain(addr) ==> Load(s', k) == Load(s, k))
            && Load(s', Plain(addr)).balance == Load(s, Plain(addr)).balance + d
  {
    var k := Plain(addr);
    var a := Load(s, k).(balance := Load(s, k).balance + d);
    TotalBounds(s, contracts, AllPlain, k);
    WrapInRange(a.balance);
    TotalSave(s, AllPlain, k, a);
    forall e ensures Total(s[k := a], Inside(e)) == Total(s, Inside(e)) { TotalSave(s, Inside(e), k, a); }
  }

  /** Changing a sub-account: nothing overflows, and only its contract's total moves. */
  lemma SubDelta(s: Store, contracts: set<Addr>, exec: Addr, addr: Addr, db: int, df: int)
    requires Sound(s, contracts) && exec in contracts
    requires 0 <= Load(s, Sub(exec, addr)).balance + db && 0 <= Load(s, Sub(exec, addr)).frozen + df
    requires Total(s, Inside(exec)) + db + df <= MAX_TOKEN_BALANCE
    ensures Load(s, Sub(exec, addr)).addr == addr
    ensures Wrap(Load(s, Sub(exec, addr)).balance + db) == Load(s, Sub(exec, addr)).balance + db
    ensures Wrap(Load(s, Sub(exec, addr)).frozen + df) == Load(s, Sub(exec, addr)).frozen + df
    ensures var s' := Shift(s, exec, addr, db, df).store;
            && Sound(s', contracts)
            && Total(s', AllPlain) == Total(s, AllPlain)
            && (forall e :: Total(s', Inside(e)) == Total(s, Inside(e)) + if e == exec then db + df else 0)
            && (forall k :: k != Sub(exec, addr) ==> Load(s', k) == Load(s, k))
            && Load(s', Sub(exec, addr)) ==
               Account(addr, Load(s, Sub(exec, addr)).balance + db, Load(s, Sub(exec, addr)).frozen + df)
  {
    hide Total, Wrap;
    var k := Sub(exec, addr);
    var a := Load(s, k);
    TotalBounds(s, contracts, Inside(exec), k);
    WrapInRange(a.balance + db);
    WrapInRange(a.frozen + df);
    var a' := Account(addr, a.balance + db, a.frozen + df);
    TotalSave(s, AllPlain, k, a');
    forall e ensures Total(s[k := a'], Inside(e)) == Total(s, Inside(e)) + if e == exec then db + df else 0 {
      TotalSave(s, Inside(e), k, a');
    }
  }

  // ----- Operations of a run -----

  datatype Op =
    | Pay(from: Addr, to: Addr, amount: int)
    | ToExec(from: Addr, to: Addr, amount: int)
    | Withdraw(from: Addr, to: Addr, amount: int)
    | Freeze(addr: Addr, exec: Addr, amount: int)
    | Activate(addr: Addr, exec: Addr, amount: int)
    | Move(from: Addr, to: Addr, exec: Addr, amount: int, frozen: bool)
    | Issue(addr: Addr, exec: Addr, amount: int)
    | MintTo(addr: Addr, amount: int)
    | BurnFrom(addr: Addr, amount: int)
    | TakeFee(addr: Addr, amount: int)
    | Genesis(addr: Addr, amount: int)
    | GenesisExec(addr: Addr, amount: int, exec: Addr)

  function Apply(s: Store, issuers: set<Addr>, op: Op): Result {
    match op
    case Pay(from, to, amount) => Transfer(s, from, to, amount)
    case ToExec(from, to, amount) => TransferToExec(s, from, to, amount)
    case Withdraw(from, to, amount) => TransferWithdraw(s, from, to, amount)
    case Freeze(addr, exec, amount) => ExecFrozen(s, addr, exec, amount)
    case Activate(addr, exec, amount) => ExecActive(s, addr, exec, amount)
    case Move(from, to, exec, amount, frozen) => ExecMove(s, from, to, exec, amount, frozen)
    case Issue(addr, exec, amount) => ExecDepositFrozen(s, issuers, addr, exec, amount)
    case MintTo(addr, amount) => Mint(s, addr, amount)
    case BurnFrom(addr, amount) => Burn(s, addr, amount)
    case TakeFee(addr, fee) => ProcessFee(s, addr, fee)
    case Genesis(addr, amount) => GenesisInit(s, addr, amount)
    case GenesisExec(addr, amount, exec) => GenesisInitExec(s, addr, amount, exec)
  }

  /** Contracts are used as contracts, never as the sender of a plain payment; amounts that no
      check guards are non-negative 64-bit numbers. */
  predicate Legal(op: Op, contracts: set<Addr>) {
    match op
    case Pay(from, to, amount) => from !in contracts
    case ToExec(from, to, amount) => from !in contracts && to in contracts
    case Withdraw(from, to, amount) => to in contracts
    case Freeze(addr, exec, amount) => exec in contracts
    case Activate(addr, exec, amount) => exec in contracts
    case Move(from, to, exec, amount, frozen) => exec in contracts
    case Issue(addr, exec, amount) => exec in contracts
    case MintTo(addr, amount) => true
    case BurnFrom(addr, amount) => addr !in contracts
    case TakeFee(addr, fee) => addr !in contracts && 0 <= fee < TWO_63
    case Genesis(addr, amount) => 0 <= amount < TWO_63
    case GenesisExec(addr, amount, exec) => exec in contracts && 0 <= amount < TWO_63
  }

  /** The coins an operation creates (or, if negative, destroys) when it succeeds. */
  function Issued(op: Op): int {
    match op
    case Issue(_, _, amount) => amount
    case MintTo(_, amount) => amount
    case BurnFrom(_, amount) => -amount
    case TakeFee(_, fee) => -fee
    case Genesis(_, amount) => amount
    case GenesisExec(_, amount, _) => amount
    case _ => 0
  }

  /** Success keeps the invariant and changes the plain total by what was issued. */
  ghost predicate Keeps(s: Store, contracts: set<Addr>, s': Store, issued: int) {
    Inv(s', contracts) && Total(s', AllPlain) == Total(s, AllPlain) + issued
  }

  lemma PlainShare(s: Store, addr: Addr)
    ensures Share(AllPlain, Plain(addr), Load(s, Plain(addr))) == Load(s, Plain(addr)).balance
  {
  }

  lemma TransferKeeps(s: Store, contracts: set<Addr>, from: Addr, to: Addr, amount: int)
    requires Sound(s, contracts) && Total(s, AllPlain) <= MAX_TOKEN_BALANCE
    requires Transfer(s, from, to, amount).outcome.Done?
    ensures var s' := Transfer(s, from, to, amount).store;
            && from != to && 0 < amount <= Load(s, Plain(from)).balance
            && Sound(s', contracts) && Total(s', AllPlain) == Total(s, AllPlain)
            && (forall e :: Total(s', Inside(e)) == Total(s, Inside(e)))
            && (forall k :: k != Plain(from) && k != Plain(to) ==> Load(s', k) == Load(s, k))
            && Load(s', Plain(from)).balance == Load(s, Plain(from)).balance - amount
            && Load(s', Plain(to)).balance == Load(s, Plain(to)).balance + amount
  {
    hide Total, Share, Wrap;
    TotalBounds(s, contracts, AllPlain, Plain(from));
    PlainShare(s, from);
    WrapInRange(Load(s, Plain(from)).balance - amount);
    PlainDelta(s, contracts, from, -amount);
    var s1 := SavePlain(s, Load(s, Plain(from)).(balance := Load(s, Plain(from)).balance - amount));
    PlainDelta(s1, contracts, to, amount);
  }

  lemma PayKeeps(s: Store, contracts: set<Addr>, from: Addr, to: Addr, amount: int)
    requires Inv(s, contracts) && from !in contracts && Transfer(s, from, to, amount).outcome.Done?
    ensures Keeps(s, contracts, Transfer(s, from, to, amount).store, 0)
  {
    hide Total, Wrap, Sound, Transfer;
    TransferKeeps(s, contracts, from, to, amount);
    NothingInside(s, contracts, from);
    var s' := Transfer(s, from, to, amount).store;
    forall e ensures Total(s', Inside(e)) <= Load(s', Plain(e)).balance {
      assert Total(s, Inside(e)) <= Load(s, Plain(e)).balance;
    }
  }

  lemma ToExecKeeps(s: Store, contracts: set<Addr>, from: Addr, to: Addr, amount: int)
    requires Inv(s, contracts) && from !in contracts && to in contracts
    requires TransferToExec(s, from, to, amount).outcome.Done?
    ensures Keeps(s, contracts, TransferToExec(s, from, to, amount).store, 0)
  {
    hide Total, Wrap, Sound, Transfer, Shift;
    var r := Transfer(s, from, to, amount);
    TransferKeeps(s, contracts, from, to, amount);
    PayKeeps(s, contracts, from, to, amount);
    assert Total(s, Inside(to)) <= Load(s, Plain(to)).balance;
    TotalBounds(r.store, contracts, AllPlain, Plain(to));
    SubSound(r.store, contracts, to, from);
    SubDelta(r.store, contracts, to, from, amount, 0);
    BackedAfter(s, r.store, Shift(r.store, to, from, amount, 0).store, to, amount);
  }

  /** Credit a contract and one of its sub-accounts by the same amount. */
  lemma BackedAfter(s: Store, s1: Store, s2: Store, exec: Addr, amount: int)
    requires Backed(s) && Backed(s1) && Load(s1, Plain(exec)).balance == Load(s, Plain(exec)).balance + amount
    requires forall e :: Total(s1, Inside(e)) == Total(s, Inside(e))
    requires forall e :: Total(s2, Inside(e)) == Total(s1, Inside(e)) + if e == exec then amount else 0
    requires forall e :: Load(s2, Plain(e)) == Load(s1, Plain(e))
    ensures Backed(s2)
  {
    hide Total;
    forall e ensures Total(s2, Inside(e)) <= Load(s2, Plain(e)).balance {
      assert Total(s1, Inside(e)) == Total(s, Inside(e)) <= Load(s, Plain(e)).balance;
      assert Total(s1, Inside(e)) <= Load(s1, Plain(e)).balance == Load(s2, Plain(e)).balance;
    }
  }

  lemma SubSound(s: Store, contracts: set<Addr>, exec: Addr, addr: Addr)
    requires Sound(s, contracts)
    ensures 0 <= Load(s, Sub(exec, addr)).balance && 0 <= Load(s, Sub(exec, addr)).frozen
  {
  }

  lemma WithdrawKeeps(s: Store, contracts: set<Addr>, from: Addr, to: Addr, amount: int)
    requires Inv(s, contracts) && to in contracts && TransferWithdraw(s, from, to, amount).outcome.Done?
    ensures Keeps(s, contracts, TransferWithdraw(s, from, to, amount).store, 0)
  {
    hide Total, Wrap, Sound, Transfer, Shift;
    var r := ExecWithdraw(s, to, from, amount);
    assert Total(s, Inside(to)) <= Load(s, Plain(to)).balance;
    TotalBounds(s, contracts, AllPlain, Plain(to));
    TotalBounds(s, contracts, Inside(to), Sub(to, from));
    SubSound(s, contracts, to, from);
    WrapInRange(Load(s, Sub(to, from)).balance - amount);
    SubDelta(s, contracts, to, from, -amount, 0);
    TransferKeeps(r.store, contracts, to, from, amount);
    var s' := Transfer(r.store, to, from, amount).store;
    forall e ensures Total(s', Inside(e)) <= Load(s', Plain(e)).balance {
      assert Total(s, Inside(e)) <= Load(s, Plain(e)).balance == Load(r.store, Plain(e)).balance;
    }
  }

  /** Moving between the parts of one sub-account. */
  lemma ShiftKeeps(s: Store, contracts: set<Addr>, exec: Addr, addr: Addr, d: int)
    requires Inv(s, contracts) && exec in contracts
    requires 0 <= Load(s, Sub(exec, addr)).balance + d && 0 <= Load(s, Sub(exec, addr)).frozen - d
    ensures Keeps(s, contracts, Shift(s, exec, addr, d, -d).store, 0)
  {
    hide Total, Wrap, Sound, Shift;
    assert Total(s, Inside(exec)) <= Load(s, Plain(exec)).balance;
    TotalBounds(s, contracts, AllPlain, Plain(exec));
    SubDelta(s, contracts, exec, addr, d, -d);
    var s' := Shift(s, exec, addr, d, -d).store;
    forall e ensures Total(s', Inside(e)) <= Load(s', Plain(e)).balance {
      assert Total(s, Inside(e)) <= Load(s, Plain(e)).balance;
    }
  }

  /** Inside a contract every part is within 64 bits. */
  lemma SubInRange(s: Store, contracts: set<Addr>, exec: Addr, addr: Addr)
    requires Inv(s, contracts)
    ensures 0 <= Load(s, Sub(exec, addr)).balance <= MAX_TOKEN_BALANCE
    ensures 0 <= Load(s, Sub(exec, addr)).frozen <= MAX_TOKEN_BALANCE
    ensures 0 <= Load(s, Plain(addr)).balance <= Total(s, AllPlain)
    ensures Total(s, Inside(exec)) <= MAX_TOKEN_BALANCE
    ensures Load(s, Sub(exec, addr)).addr == addr && Load(s, Plain(addr)).addr == addr
  {
    hide Total;
    assert Total(s, Inside(exec)) <= Load(s, Plain(exec)).balance;
    TotalBounds(s, contracts, AllPlain, Plain(exec));
    TotalBounds(s, contracts, AllPlain, Plain(addr));
    TotalBounds(s, contracts, Inside(exec), Sub(exec, addr));
  }

  lemma FreezeKeeps(s: Store, contracts: set<Addr>, exec: Addr, addr: Addr, amount: int)
    requires Inv(s, contracts) && exec in contracts
    ensures ExecFrozen(s, addr, exec, amount).outcome.Done? ==>
              Keeps(s, contracts, ExecFrozen(s, addr, exec, amount).store, 0)
    ensures ExecActive(s, addr, exec, amount).outcome.Done? ==>
              Keeps(s, contracts, ExecActive(s, addr, exec, amount).store, 0)
  {
    hide Total, Wrap, Keeps, Inv, Shift;
    SubInRange(s, contracts, exec, addr);
    if ExecFrozen(s, addr, exec, amount).outcome.Done? {
      WrapInRange(Load(s, Sub(exec, addr)).balance - amount);
      ShiftKeeps(s, contracts, exec, addr, -amount);
    }
    if ExecActive(s, addr, exec, amount).outcome.Done? {
      WrapInRange(Load(s, Sub(exec, addr)).frozen - amount);
      ShiftKeeps(s, contracts, exec, addr, amount);
    }
  }

  /** A move between two sub-accounts is a debit of one and a credit of the other. */
  lemma MoveIsTwoShifts(s: Store, contracts: set<Addr>, from: Addr, to: Addr, exec: Addr, amount: int, frozen: bool)
    requires Inv(s, contracts) && exec in contracts && ExecMove(s, from, to, exec, amount, frozen).outcome.Done?
    ensures var s1 := Shift(s, exec, from, if frozen then 0 else -amount, if frozen then -amount else 0).store;
            && 0 < amount <= (if frozen then Load(s, Sub(exec, from)).frozen else Load(s, Sub(exec, from)).balance)
            && Load(s1, Sub(exec, to)) == Load(s, Sub(exec, to))
            && ExecMove(s, from, to, exec, amount, frozen).store == Shift(s1, exec, to, amount, 0).store
  {
    hide Total, Inv;
    SubInRange(s, contracts, exec, from);
    SubInRange(s, contracts, exec, to);
    WrapInRange(Load(s, Sub(exec, from)).balance);
    WrapInRange(Load(s, Sub(exec, from)).frozen);
    WrapInRange(Load(s, Sub(exec, to)).frozen);
    WrapInRange((if frozen then Load(s, Sub(exec, from)).frozen else Load(s, Sub(exec, from)).balance) - amount);
  }

  lemma MoveKeeps(s: Store, contracts: set<Addr>, from: Addr, to: Addr, exec: Addr, amount: int, frozen: bool)
    requires Inv(s, contracts) && exec in contracts && ExecMove(s, from, to, exec, amount, frozen).outcome.Done?
    ensures Keeps(s, contracts, ExecMove(s, from, to, exec, amount, frozen).store, 0)
  {
    hide Total, Wrap, Shift, ExecMove, Sound;
    var db, df := if frozen then 0 else -amount, if frozen then -amount else 0;
    MoveIsTwoShifts(s, contracts, from, to, exec, amount, frozen);
    SubInRange(s, contracts, exec, from);
    SubInRange(s, contracts, exec, to);
    SubDelta(s, contracts, exec, from, db, df);
    var s1 := Shift(s, exec, from, db, df).store;
    SubDelta(s1, contracts, exec, to, amount, 0);
    var s' := Shift(s1, exec, to, amount, 0).store;
    forall e ensures Total(s', Inside(e)) <= Load(s', Plain(e)).balance {
      assert Total(s, Inside(e)) <= Load(s, Plain(e)).balance == Load(s1, Plain(e)).balance;
    }
  }

  /** A plain balance going up, or going down for an address that is no contract. */
  lemma DeltaKeeps(s: Store, contracts: set<Addr>, addr: Addr, d: int)
    requires Inv(s, contracts) && (d < 0 ==> addr !in contracts)
    requires 0 <= Load(s, Plain(addr)).balance + d && Total(s, AllPlain) + d <= MAX_TOKEN_BALANCE
    ensures var s' := SavePlain(s, Load(s, Plain(addr)).(balance := Load(s, Plain(addr)).balance + d));
            && Keeps(s, contracts, s', d) && Load(s', Plain(addr)).balance == Load(s, Plain(addr)).balance + d
            && (forall e :: Total(s', Inside(e)) == Total(s, Inside(e)))
    ensures Wrap(Load(s, Plain(addr)).balance + d) == Load(s, Plain(addr)).balance + d
  {
    hide Total, Wrap, Sound;
    PlainDelta(s, contracts, addr, d);
    if addr !in contracts { NothingInside(s, contracts, addr); }
    var s' := SavePlain(s, Load(s, Plain(addr)).(balance := Load(s, Plain(addr)).balance + d));
    forall e ensures Total(s', Inside(e)) <= Load(s', Plain(e)).balance {
      assert Total(s, Inside(e)) <= Load(s, Plain(e)).balance;
    }
  }

  /** New coins for a contract together with an equal credit inside it. */
  lemma CreditKeeps(s: Store, contracts: set<Addr>, exec: Addr, addr: Addr, amount: int, frozen: bool)
    requires Inv(s, contracts) && exec in contracts && 0 <= amount && Total(s, AllPlain) + amount <= MAX_TOKEN_BALANCE
    ensures var s1 := SavePlain(s, Load(s, Plain(exec)).(balance := Load(s, Plain(exec)).balance + amount));
            Keeps(s, contracts,
                  Shift(s1, exec, addr, if frozen then 0 else amount, if frozen then amount else 0).store, amount)
  {
    hide Total, Wrap, Sound, Shift;
    SubInRange(s, contracts, exec, exec);
    DeltaKeeps(s, contracts, exec, amount);
    var s1 := SavePlain(s, Load(s, Plain(exec)).(balance := Load(s, Plain(exec)).balance + amount));
    var db, df := if frozen then 0 else amount, if frozen then amount else 0;
    SubInRange(s1, contracts, exec, addr);
    SubInRange(s1, contracts, exec, exec);
    assert Total(s, Inside(exec)) <= Load(s, Plain(exec)).balance;
    SubDelta(s1, contracts, exec, addr, db, df);
    BackedAfter(s, s1, Shift(s1, exec, addr, db, df).store, exec, amount);
  }

  lemma IssueKeeps(s: Store, contracts: set<Addr>, issuers: set<Addr>, op: Op)
    requires Inv(s, contracts) && Legal(op, contracts) && (op.Issue? || op.GenesisExec?)
    requires Apply(s, issuers, op).outcome.Done? && Total(s, AllPlain) + Issued(op) <= MAX_TOKEN_BALANCE
    ensures Keeps(s, contracts, Apply(s, issuers, op).store, Issued(op))
  {
    hide Total, Wrap, Sound, Shift, Keeps, Inv;
    SubInRange(s, contracts, op.exec, op.exec);
    CreditKeeps(s, contracts, op.exec, op.addr, op.amount, op.Issue?);
    WrapInRange(Load(s, Plain(op.exec)).balance + op.amount);
    SafeAddExact(Load(s, Plain(op.exec)).balance, op.amount);
  }

  lemma PlainOpKeeps(s: Store, contracts: set<Addr>, issuers: set<Addr>, op: Op)
    requires Inv(s, contracts) && Legal(op, contracts)
    requires op.MintTo? || op.BurnFrom? || op.TakeFee? || op.Genesis?
    requires Apply(s, issuers, op).outcome.Done? && Total(s, AllPlain) + Issued(op) <= MAX_TOKEN_BALANCE
    ensures Keeps(s, contracts, Apply(s, issuers, op).store, Issued(op))
  {
    hide Total, Wrap, Sound, Keeps, Inv;
    SubInRange(s, contracts, op.addr, op.addr);
    var balance := Load(s, Plain(op.addr)).balance;
    WrapInRange(balance - op.amount);
    if op.MintTo? || op.Genesis? { SafeAddExact(balance, op.amount); }
    DeltaKeeps(s, contracts, op.addr, Issued(op));
  }

  /** No step of a backed run breaks the invariant, and the plain total moves only by issue. */
  lemma OpKeeps(s: Store, contracts: set<Addr>, issuers: set<Addr>, op: Op)
    requires Inv(s, contracts) && Legal(op, contracts)
    requires Apply(s, issuers, op).outcome.Done? && Total(s, AllPlain) + Issued(op) <= MAX_TOKEN_BALANCE
    ensures Keeps(s, contracts, Apply(s, issuers, op).store, Issued(op))
  {
    hide Total, Wrap, Sound, Keeps, Inv, Shift, Transfer;
    match op
    case Pay(from, to, amount) => PayKeeps(s, contracts, from, to, amount);
    case ToExec(from, to, amount) => ToExecKeeps(s, contracts, from, to, amount);
    case Withdraw(from, to, amount) => WithdrawKeeps(s, contracts, from, to, amount);
    case Freeze(addr, exec, amount) => FreezeKeeps(s, contracts, exec, addr, amount);
    case Activate(addr, exec, amount) => FreezeKeeps(s, contracts, exec, addr, amount);
    case Move(from, to, exec, amount, frozen) => MoveKeeps(s, contracts, from, to, exec, amount, frozen);
    case Issue(_, _, _) => IssueKeeps(s, contracts, issuers, op);
    case GenesisExec(_, _, _) => IssueKeeps(s, contracts, issuers, op);
    case _ => PlainOpKeeps(s, contracts, issuers, op);
  }

  /** The store after an operation; one that does not succeed leaves no trace. */
  function After(s: Store, issuers: set<Addr>, op: Op): Store {
    var r := Apply(s, issuers, op);
    if r.outcome.Done? then r.store else s
  }

  function RunAll(s: Store, issuers: set<Addr>, ops: seq<Op>): Store {
    if ops == [] then s else After(RunAll(s, issuers, ops[..|ops| - 1]), issuers, ops[|ops| - 1])
  }

  /** The coins created by the operations of a run that succeeded. */
  function IssuedBy(s: Store, issuers: set<Addr>, ops: seq<Op>): int {
    if ops == [] then 0
    else
      var n := |ops| - 1;
      IssuedBy(s, issuers, ops[..n])
      + if Apply(RunAll(s, issuers, ops[..n]), issuers, ops[n]).outcome.Done? then Issued(ops[n]) else 0
  }

  /** Over every run of legal operations whose total issuance stays within the bound: no amount
      becomes negative or overflows, every contract stays backed, and the plain total is the
      initial one plus what was issued. */
  lemma {:induction false} RunStaysBacked(s: Store, contracts: set<Addr>, issuers: set<Addr>, ops: seq<Op>)
    requires Inv(s, contracts)
    requires forall i :: 0 <= i < |ops| ==> Legal(ops[i], contracts)
    requires forall n :: 0 <= n <= |ops| ==> Total(s, AllPlain) + IssuedBy(s, issuers, ops[..n]) <= MAX_TOKEN_BALANCE
    ensures Inv(RunAll(s, issuers, ops), contracts)
    ensures Total(RunAll(s, issuers, ops), AllPlain) == Total(s, AllPlain) + IssuedBy(s, issuers, ops)
    decreases |ops|
  {
    hide Total, Inv, Apply, Legal, Issued;
    if ops != [] {
      var n := |ops| - 1;
      assert forall m :: 0 <= m <= n ==> ops[..n][..m] == ops[..m];
      RunStaysBacked(s, contracts, issuers, ops[..n]);
      var before := RunAll(s, issuers, ops[..n]);
      assert ops[..|ops|] == ops;
      assert Total(s, AllPlain) + IssuedBy(s, issuers, ops[..|ops|]) <= MAX_TOKEN_BALANCE;
      if Apply(before, issuers, ops[n]).outcome.Done? { OpKeeps(before, contracts, issuers, ops[n]); }
    }
  }

  // ----- Errors, panics and receipts -----

  /** An operation that returns an error has changed nothing, whatever the store. */
  lemma ErrorKeepsStore(s: Store, issuers: set<Addr>, op: Op)
    ensures Apply(s, issuers, op).outcome.Failed? ==> Apply(s, issuers, op).store == s
  {
    hide Wrap;
  }

  ghost predicate OwnAddresses(s: Store) {
    forall k :: k in s ==> s[k].addr == k.addr
  }

  /** The only operation that can stop the node is the genesis credit inside a contract, and it does
      so exactly when its balance check passes but its deposit is not allowed. */
  lemma PanicsExactly(s: Store, issuers: set<Addr>, op: Op)
    requires OwnAddresses(s)
    ensures Apply(s, issuers, op).outcome.Panicked? <==>
            && op.GenesisExec?
            && SafeAdd(Load(s, Plain(op.exec)).balance, op.amount).0
            && (op.addr == op.exec || !CheckAmount(op.amount))
  {
    hide Wrap;
    if op.Withdraw? {
      var r := ExecWithdraw(s, op.to, op.from, op.amount);
      if r.outcome.Done? {
        assert Load(r.store, Plain(op.to)) == Load(s, Plain(op.to));
        assert Load(r.store, Plain(op.from)) == Load(s, Plain(op.from));
      }
    }
  }

  /** Writes applied in order. */
  function Overlay(s: Store, kvs: seq<(Key, Account)>): Store {
    if kvs == [] then s else Overlay(s, kvs[..|kvs| - 1])[kvs[|kvs| - 1].0 := kvs[|kvs| - 1].1]
  }

  lemma OverlayOne(s: Store, x: (Key, Account))
    ensures Overlay(s, [x]) == s[x.0 := x.1]
  {
    assert [x][..0] == [];
  }

  lemma {:induction false} OverlayJoin(s: Store, a: seq<(Key, Account)>, b: seq<(Key, Account)>)
    ensures Overlay(s, a + b) == Overlay(Overlay(s, a), b)
    decreases |b|
  {
    if b == [] {
      assert a + b == a;
    } else {
      assert (a + b)[..|a + b| - 1] == a + b[..|b| - 1];
      OverlayJoin(s, a, b[..|b| - 1]);
    }
  }

  /** What a result's receipt lists is what was written, in order. */
  ghost predicate Receipted(s: Store, r: Result) {
    r.outcome.Done? ==> r.store == Overlay(s, r.outcome.kvs)
  }

  lemma PairReceipted(s: Store, x: (Key, Account), y: (Key, Account))
    ensures Overlay(s, [x, y]) == s[x.0 := x.1][y.0 := y.1]
  {
    assert [x, y] == [x] + [y];
    OverlayJoin(s, [x], [y]);
    OverlayOne(s, x);
    OverlayOne(s[x.0 := x.1], y);
  }

  lemma ThenReceipted(s: Store, first: Result, second: Result, panics: bool)
    requires Receipted(s, first) && (first.outcome.Done? ==> Receipted(first.store, second))
    ensures Receipted(s, Then(first, second, panics))
  {
    if first.outcome.Done? && second.outcome.Done? { OverlayJoin(s, first.outcome.kvs, second.outcome.kvs); }
  }

  lemma StepReceipted(s: Store, x: (Key, Account))
    ensures Receipted(s, Result(s[x.0 := x.1], Done([x])))
  {
    OverlayOne(s, x);
  }

  lemma ShiftReceipted(s: Store, exec: Addr, addr: Addr, db: int, df: int)
    ensures Receipted(s, Shift(s, exec, addr, db, df))
  {
    StepReceipted(s, Shift(s, exec, addr, db, df).outcome.kvs[0]);
  }

  lemma TransferReceipted(s: Store, from: Addr, to: Addr, amount: int)
    ensures Receipted(s, Transfer(s, from, to, amount))
  {
    hide Wrap, Overlay;
    var r := Transfer(s, from, to, amount);
    if r.outcome.Done? { PairReceipted(s, r.outcome.kvs[0], r.outcome.kvs[1]); }
  }

  /** Whatever the store, a successful operation's receipt lists exactly its writes, in order. */
  lemma OpReceipted(s: Store, issuers: set<Addr>, op: Op)
    ensures Receipted(s, Apply(s, issuers, op))
  {
    hide Wrap, Overlay, Transfer, Shift;
    match op
    case Pay(from, to, amount) => TransferReceipted(s, from, to, amount);
    case ToExec(from, to, amount) =>
      var r := Transfer(s, from, to, amount);
      TransferReceipted(s, from, to, amount);
      ShiftReceipted(r.store, to, from, amount, 0);
      ThenReceipted(s, r, ExecDeposit(r.store, from, to, amount), true);
    case Withdraw(from, to, amount) =>
      var r := ExecWithdraw(s, to, from, amount);
      ShiftReceipted(s, to, from, -amount, 0);
      TransferReceipted(r.store, to, from, amount);
      ThenReceipted(s, r, Transfer(r.store, to, from, amount), true);
      OverlayNone(s);
    case Freeze(addr, exec, amount) => ShiftReceipted(s, exec, addr, -amount, amount);
    case Activate(addr, exec, amount) => ShiftReceipted(s, exec, addr, amount, -amount);
    case Move(from, to, exec, amount, frozen) =>
      var r := ExecMove(s, from, to, exec, amount, frozen);
      if r.outcome.Done? { PairReceipted(s, r.outcome.kvs[0], r.outcome.kvs[1]); }
    case Issue(addr, exec, amount) =>
      var r := DepositBalance(s, exec, amount);
      if r.outcome.Done? { StepReceipted(s, r.outcome.kvs[0]); }
      ShiftReceipted(r.store, exec, addr, 0, amount);
      var frozen := if !CheckAmount(amount) then Fail(r.store, ErrAmount) else Shift(r.store, exec, addr, 0, amount);
      ThenReceipted(s, r, frozen, false);
    case GenesisExec(addr, amount, exec) =>
      var r := GenesisInit(s, exec, amount);
      if r.outcome.Done? { StepReceipted(s, r.outcome.kvs[0]); }
      ShiftReceipted(r.store, exec, addr, amount, 0);
      ThenReceipted(s, r, ExecDeposit(r.store, addr, exec, amount), true);
    case _ =>
      var r := Apply(s, issuers, op);
      if r.outcome.Done? { StepReceipted(s, r.outcome.kvs[0]); }
  }

  /** The accounts an operation writes, in the order of its receipt. */
  function Touched(op: Op): seq<Key> {
    match op
    case Pay(from, to, _) => [Plain(from), Plain(to)]
    case ToExec(from, to, _) => [Plain(from), Plain(to), Sub(to, from)]
    case Withdraw(from, to, _) => [Sub(to, from), Plain(to), Plain(from)]
    case Freeze(addr, exec, _) => [Sub(exec, addr)]
    case Activate(addr, exec, _) => [Sub(exec, addr)]
    case Move(from, to, exec, _, _) => [Sub(exec, from), Sub(exec, to)]
    case Issue(addr, exec, _) => [Plain(exec), Sub(exec, addr)]
    case GenesisExec(addr, _, exec) => [Plain(exec), Sub(exec, addr)]
    case _ => [Plain(op.addr)]
  }

  /** A receipt names exactly these, each once. */
  ghost predicate Names(op: Op, o: Outcome) {
    o.Done? ==> |o.kvs| == |Touched(op)| && forall i :: 0 <= i < |o.kvs| ==> o.kvs[i].0 == Touched(op)[i]
  }

  lemma TransferNames(s: Store, from: Addr, to: Addr, amount: int)
    requires OwnAddresses(s)
    ensures Names(Pay(from, to, amount), Transfer(s, from, to, amount).outcome)
    ensures OwnAddresses(Transfer(s, from, to, amount).store)
  {
    hide Wrap;
  }

  lemma ShiftNames(s: Store, exec: Addr, addr: Addr, db: int, df: int)
    requires OwnAddresses(s)
    ensures Shift(s, exec, addr, db, df).outcome.Done? && |Shift(s, exec, addr, db, df).outcome.kvs| == 1
    ensures Shift(s, exec, addr, db, df).outcome.kvs[0].0 == Sub(exec, addr)
    ensures OwnAddresses(Shift(s, exec, addr, db, df).store)
  {
    hide Wrap;
  }

  lemma PlainNames(s: Store, addr: Addr, amount: int)
    requires OwnAddresses(s)
    ensures Names(MintTo(addr, amount), DepositBalance(s, addr, amount).outcome)
    ensures Names(MintTo(addr, amount), GenesisInit(s, addr, amount).outcome)
    ensures OwnAddresses(DepositBalance(s, addr, amount).store) && OwnAddresses(GenesisInit(s, addr, amount).store)
  {
    hide Wrap, SafeAdd;
  }

  lemma InOutNames(s: Store, from: Addr, to: Addr, amount: int)
    requires OwnAddresses(s)
    ensures Names(ToExec(from, to, amount), TransferToExec(s, from, to, amount).outcome)
    ensures Names(Withdraw(from, to, amount), TransferWithdraw(s, from, to, amount).outcome)
  {
    hide Wrap, OwnAddresses, Transfer, Shift;
    TransferNames(s, from, to, amount);
    ShiftNames(Transfer(s, from, to, amount).store, to, from, amount, 0);
    ShiftNames(s, to, from, -amount, 0);
    TransferNames(Shift(s, to, from, -amount, 0).store, to, from, amount);
  }

  lemma IssueNames(s: Store, issuers: set<Addr>, addr: Addr, exec: Addr, amount: int)
    requires OwnAddresses(s)
    ensures Names(Issue(addr, exec, amount), ExecDepositFrozen(s, issuers, addr, exec, amount).outcome)
    ensures Names(GenesisExec(addr, amount, exec), GenesisInitExec(s, addr, amount, exec).outcome)
  {
    hide Wrap, OwnAddresses, Shift, DepositBalance, GenesisInit;
    PlainNames(s, exec, amount);
    ShiftNames(DepositBalance(s, exec, amount).store, exec, addr, 0, amount);
    ShiftNames(GenesisInit(s, exec, amount).store, exec, addr, amount, 0);
  }

  lemma OpNames(s: Store, issuers: set<Addr>, op: Op)
    requires OwnAddresses(s)
    ensures Names(op, Apply(s, issuers, op).outcome)
  {
    hide Wrap, SafeAdd, OwnAddresses, Transfer, Shift, GenesisInit, TransferToExec, TransferWithdraw, ExecDepositFrozen,
         GenesisInitExec;
    match op {
      case Pay(from, to, amount) => TransferNames(s, from, to, amount);
      case ToExec(from, to, amount) => InOutNames(s, from, to, amount);
      case Withdraw(from, to, amount) => InOutNames(s, from, to, amount);
      case Freeze(addr, exec, amount) => ShiftNames(s, exec, addr, -amount, amount);
      case Activate(addr, exec, amount) => ShiftNames(s, exec, addr, amount, -amount);
      case Issue(addr, exec, amount) => IssueNames(s, issuers, addr, exec, amount);
      case Genesis(addr, amount) => PlainNames(s, addr, amount);
      case GenesisExec(addr, amount, exec) => IssueNames(s, issuers, addr, exec, amount);
      case _ => OneCallNames(s, issuers, op);
    }
  }

  lemma OneCallNames(s: Store, issuers: set<Addr>, op: Op)
    requires OwnAddresses(s) && (op.Move? || op.MintTo? || op.BurnFrom? || op.TakeFee?)
    ensures Names(op, Apply(s, issuers, op).outcome)
  {
    hide Wrap, SafeAdd;
  }

  lemma OverlayNone(s: Store)
    ensures Overlay(s, []) == s
  {
  }

  /** Under the invariant, a user with enough balance inside a contract can always withdraw it. */
  lemma CanAlwaysWithdraw(s: Store, contracts: set<Addr>, user: Addr, exec: Addr, amount: int)
    requires Inv(s, contracts) && user != exec && CheckAmount(amount)
    requires amount <= Load(s, Sub(exec, user)).balance
    ensures TransferWithdraw(s, user, exec, amount).outcome.Done?
  {
    hide Total;
    SubInRange(s, contracts, exec, user);
    SubInRange(s, contracts, exec, exec);
    TotalBounds(s, contracts, Inside(exec), Sub(exec, user));
    assert Total(s, Inside(exec)) <= Load(s, Plain(exec)).balance;
    WrapInRange(Load(s, Plain(exec)).balance - amount);
    WrapInRange(Load(s, Sub(exec, user)).balance - amount);
    PanicsExactly(s, {}, Withdraw(user, exec, amount));
  }

  /** A plain payment keeps every contract backed exactly when it leaves the sender enough for what
      is inside the sender; only a contract has anything inside. */
  lemma PayKeepsBackingExactly(s: Store, contracts: set<Addr>, from: Addr, to: Addr, amount: int)
    requires Inv(s, contracts) && Transfer(s, from, to, amount).outcome.Done?
    ensures Backed(Transfer(s, from, to, amount).store) <==>
            Total(s, Inside(from)) <= Load(s, Plain(from)).balance - amount
  {
    hide Total, Wrap, Sound, Transfer;
    TransferKeeps(s, contracts, from, to, amount);
    var s' := Transfer(s, from, to, amount).store;
    assert Total(s', Inside(from)) == Total(s, Inside(from));
    if Total(s, Inside(from)) <= Load(s, Plain(from)).balance - amount {
      forall e ensures Total(s', Inside(e)) <= Load(s', Plain(e)).balance {
        assert Total(s, Inside(e)) <= Load(s, Plain(e)).balance;
      }
    }
  }

  // ----- Plain debits of contracts -----

  /** The operation debits a plain account without taking the same amount out of a sub-account. */
  predicate Debits(op: Op) {
    op.Pay? || op.ToExec? || op.BurnFrom? || op.TakeFee?
  }

  function Payer(op: Op): Addr
    requires Debits(op)
  {
    if op.Pay? || op.ToExec? then op.from else op.addr
  }

  /** `Legal` without its condition on who pays. */
  predicate Proper(op: Op, contracts: set<Addr>) {
    match op
    case Pay(_, _, _) => true
    case ToExec(_, to, _) => to in contracts
    case BurnFrom(_, _) => true
    case TakeFee(_, fee) => 0 <= fee < TWO_63
    case _ => Legal(op, contracts)
  }

  /** The debit leaves enough for what is inside the payer; only a contract has anything inside. */
  ghost predicate Affords(s: Store, op: Op) {
    Debits(op) ==> Total(s, Inside(Payer(op))) <= Load(s, Plain(Payer(op))).balance - op.amount
  }

  lemma ToExecKeepsBackingExactly(s: Store, contracts: set<Addr>, from: Addr, to: Addr, amount: int)
    requires Inv(s, contracts) && to in contracts && TransferToExec(s, from, to, amount).outcome.Done?
    ensures Keeps(s, contracts, TransferToExec(s, from, to, amount).store, 0) <==>
            Total(s, Inside(from)) <= Load(s, Plain(from)).balance - amount
  {
    hide Total, Wrap, Sound, Transfer, Shift;
    var s1 := Transfer(s, from, to, amount).store;
    TransferKeeps(s, contracts, from, to, amount);
    assert Total(s, Inside(to)) <= Load(s, Plain(to)).balance;
    TotalBounds(s1, contracts, AllPlain, Plain(to));
    SubSound(s1, contracts, to, from);
    SubDelta(s1, contracts, to, from, amount, 0);
    var s2 := Shift(s1, to, from, amount, 0).store;
    assert Total(s2, Inside(from)) == Total(s, Inside(from));
    if Total(s, Inside(from)) <= Load(s, Plain(from)).balance - amount {
      forall e ensures Total(s2, Inside(e)) <= Load(s2, Plain(e)).balance {
        assert Total(s, Inside(e)) <= Load(s, Plain(e)).balance;
      }
    }
  }

  /** Destroying plain coins. */
  lemma DebitKeepsExactly(s: Store, contracts: set<Addr>, addr: Addr, amount: int)
    requires Inv(s, contracts) && 0 <= amount <= Load(s, Plain(addr)).balance
    ensures var s' := SavePlain(s, Load(s, Plain(addr)).(balance := Load(s, Plain(addr)).balance - amount));
            Keeps(s, contracts, s', -amount) <==> Total(s, Inside(addr)) <= Load(s, Plain(addr)).balance - amount
    ensures Wrap(Load(s, Plain(addr)).balance - amount) == Load(s, Plain(addr)).balance - amount
  {
    hide Total, Wrap, Sound;
    PlainDelta(s, contracts, addr, -amount);
    var s' := SavePlain(s, Load(s, Plain(addr)).(balance := Load(s, Plain(addr)).balance - amount));
    assert Total(s', Inside(addr)) == Total(s, Inside(addr));
    if Total(s, Inside(addr)) <= Load(s, Plain(addr)).balance - amount {
      forall e ensures Total(s', Inside(e)) <= Load(s', Plain(e)).balance {
        assert Total(s, Inside(e)) <= Load(s, Plain(e)).balance;
      }
    }
  }

  /** Whoever pays, the plain total changes by what was issued. */
  lemma TotalAfter(s: Store, contracts: set<Addr>, issuers: set<Addr>, op: Op)
    requires Inv(s, contracts) && Proper(op, contracts)
    requires Apply(s, issuers, op).outcome.Done? && Total(s, AllPlain) + Issued(op) <= MAX_TOKEN_BALANCE
    ensures Total(Apply(s, issuers, op).store, AllPlain) == Total(s, AllPlain) + Issued(op)
  {
    hide Total, Wrap, Sound, Shift, Transfer;
    match op
    case Pay(from, to, amount) => TransferKeeps(s, contracts, from, to, amount);
    case ToExec(from, to, amount) =>
      var s1 := Transfer(s, from, to, amount).store;
      TransferKeeps(s, contracts, from, to, amount);
      assert Total(s, Inside(to)) <= Load(s, Plain(to)).balance;
      TotalBounds(s1, contracts, AllPlain, Plain(to));
      SubSound(s1, contracts, to, from);
      SubDelta(s1, contracts, to, from, amount, 0);
    case BurnFrom(addr, amount) =>
      SubInRange(s, contracts, addr, addr);
      PlainDelta(s, contracts, addr, -amount);
    case TakeFee(addr, fee) =>
      SubInRange(s, contracts, addr, addr);
      WrapInRange(Load(s, Plain(addr)).balance - fee);
      PlainDelta(s, contracts, addr, -fee);
    case _ => OpKeeps(s, contracts, issuers, op);
  }

  /** Whoever pays, a successful operation keeps the invariant exactly if it can be afforded. */
  lemma OpKeepsExactly(s: Store, contracts: set<Addr>, issuers: set<Addr>, op: Op)
    requires Inv(s, contracts) && Proper(op, contracts)
    requires Apply(s, issuers, op).outcome.Done? && Total(s, AllPlain) + Issued(op) <= MAX_TOKEN_BALANCE
    ensures Keeps(s, contracts, Apply(s, issuers, op).store, Issued(op)) <==> Affords(s, op)
  {
    hide Total, Wrap, Sound, Shift, Transfer;
    match op
    case Pay(from, to, amount) =>
      TransferKeeps(s, contracts, from, to, amount);
      PayKeepsBackingExactly(s, contracts, from, to, amount);
    case ToExec(from, to, amount) => ToExecKeepsBackingExactly(s, contracts, from, to, amount);
    case BurnFrom(addr, amount) =>
      SubInRange(s, contracts, addr, addr);
      DebitKeepsExactly(s, contracts, addr, amount);
    case TakeFee(addr, fee) =>
      SubInRange(s, contracts, addr, addr);
      WrapInRange(Load(s, Plain(addr)).balance - fee);
      DebitKeepsExactly(s, contracts, addr, fee);
    case _ => OpKeeps(s, contracts, issuers, op);
  }

  /** Over every run, whoever pays: every contract is backed all along exactly if every operation that
      succeeds can be afforded. */
  lemma {:induction false} RunBackedExactly(s: Store, contracts: set<Addr>, issuers: set<Addr>, ops: seq<Op>)
    requires Inv(s, contracts)
    requires forall i :: 0 <= i < |ops| ==> Proper(ops[i], contracts)
    requires forall n :: 0 <= n <= |ops| ==> Total(s, AllPlain) + IssuedBy(s, issuers, ops[..n]) <= MAX_TOKEN_BALANCE
    ensures AlwaysBacked(s, contracts, issuers, ops, |ops|) <==> AllAfforded(s, issuers, ops, |ops|)
    ensures AllAfforded(s, issuers, ops, |ops|) ==>
              Total(RunAll(s, issuers, ops), AllPlain) == Total(s, AllPlain) + IssuedBy(s, issuers, ops)
    decreases |ops|
  {
    hide Total, Inv, Apply, Proper, Issued, AffordedAt, RunAll, IssuedBy;
    assert ops[..|ops|] == ops;
    if ops == [] {
      NothingRun(s, issuers);
    } else {
      var n := |ops| - 1;
      assert forall m :: 0 <= m <= n ==> ops[..n][..m] == ops[..m];
      RunBackedExactly(s, contracts, issuers, ops[..n]);
      SameForPrefix(s, contracts, issuers, ops, n);
      if AllAfforded(s, issuers, ops, n) { LastStepExactly(s, contracts, issuers, ops); }
    }
  }

  lemma NothingRun(s: Store, issuers: set<Addr>)
    ensures RunAll(s, issuers, []) == s && IssuedBy(s, issuers, []) == 0
  {
  }

  /** The invariant holds after each of the first `n` operations. */
  ghost predicate AlwaysBacked(s: Store, contracts: set<Addr>, issuers: set<Addr>, ops: seq<Op>, n: nat)
    requires n <= |ops|
  {
    forall m :: 0 <= m <= n ==> Inv(RunAll(s, issuers, ops[..m]), contracts)
  }

  lemma SameForPrefix(s: Store, contracts: set<Addr>, issuers: set<Addr>, ops: seq<Op>, n: nat)
    requires n <= |ops|
    ensures AlwaysBacked(s, contracts, issuers, ops, n) <==> AlwaysBacked(s, contracts, issuers, ops[..n], n)
    ensures AllAfforded(s, issuers, ops, n) <==> AllAfforded(s, issuers, ops[..n], n)
  {
    hide RunAll, Inv, Affords, Apply;
    assert forall m :: 0 <= m <= n ==> ops[..n][..m] == ops[..m];
    forall i | 0 <= i < n
      ensures AffordedAt(s, issuers, ops[..n], i) <==> AffordedAt(s, issuers, ops, i)
    {
      assert ops[..n][..i] == ops[..i];
    }
  }

  lemma LastStepExactly(s: Store, contracts: set<Addr>, issuers: set<Addr>, ops: seq<Op>)
    requires ops != [] && Proper(ops[|ops| - 1], contracts)
    requires var before := RunAll(s, issuers, ops[..|ops| - 1]);
             && Inv(before, contracts)
             && Total(before, AllPlain) == Total(s, AllPlain) + IssuedBy(s, issuers, ops[..|ops| - 1])
    requires Total(s, AllPlain) + IssuedBy(s, issuers, ops) <= MAX_TOKEN_BALANCE
    ensures Inv(RunAll(s, issuers, ops), contracts) <==> AffordedAt(s, issuers, ops, |ops| - 1)
    ensures AffordedAt(s, issuers, ops, |ops| - 1) ==>
              Total(RunAll(s, issuers, ops), AllPlain) == Total(s, AllPlain) + IssuedBy(s, issuers, ops)
  {
    hide Total, Inv, Apply, Proper, Issued, Affords;
    var op := ops[|ops| - 1];
    var before := RunAll(s, issuers, ops[..|ops| - 1]);
    if Apply(before, issuers, op).outcome.Done? {
      OpKeepsExactly(before, contracts, issuers, op);
      TotalAfter(before, contracts, issuers, op);
    }
  }

  /** The operations before the `n`-th that succeed can be afforded. */
  ghost predicate AllAfforded(s: Store, issuers: set<Addr>, ops: seq<Op>, n: nat)
    requires n <= |ops|
  {
    forall i :: 0 <= i < n ==> AffordedAt(s, issuers, ops, i)
  }

  ghost predicate AffordedAt(s: Store, issuers: set<Addr>, ops: seq<Op>, i: nat)
    requires i < |ops|
  {
    var before := RunAll(s, issuers, ops[..i]);
    Apply(before, issuers, ops[i]).outcome.Done? ==> Affords(before, ops[i])
  }
}
