/** What each ledger operation does to each account, in exact integers, when it succeeds, and
    which operations take each other back. */
module LedgerEffects {
  import opened Ledgers

  datatype Delta = Delta(balance: int, frozen: int)

  function At(here: bool, x: int): int {
    if here then x else 0
  }

  /** The change of account `k` by a successful operation. */
  function EffectOn(op: Op, k: Key): Delta {
    match op
    case Pay(from, to, a) => Delta(At(k == Plain(from), -a) + At(k == Plain(to), a), 0)
    case ToExec(from, to, a) => Delta(At(k == Plain(from), -a) + At(k == Plain(to), a) + At(k == Sub(to, from), a), 0)
    case Withdraw(from, to, a) =>
      Delta(At(k == Plain(from), a) + At(k == Plain(to), -a) + At(k == Sub(to, from), -a), 0)
    case Freeze(addr, exec, a) => Delta(At(k == Sub(exec, addr), -a), At(k == Sub(exec, addr), a))
    case Activate(addr, exec, a) => Delta(At(k == Sub(exec, addr), a), At(k == Sub(exec, addr), -a))
    case Move(from, to, exec, a, frozen) =>
      Delta(At(k == Sub(exec, from) && !frozen, -a) + At(k == Sub(exec, to), a), At(k == Sub(exec, from) && frozen, -a))
    case Issue(addr, exec, a) => Delta(At(k == Plain(exec), a), At(k == Sub(exec, addr), a))
    case MintTo(addr, a) => Delta(At(k == Plain(addr), a), 0)
    case BurnFrom(addr, a) => Delta(At(k == Plain(addr), -a), 0)
    case TakeFee(addr, a) => Delta(At(k == Plain(addr), -a), 0)
    case Genesis(addr, a) => Delta(At(k == Plain(addr), a), 0)
    case GenesisExec(addr, a, exec) => Delta(At(k == Plain(exec), a) + At(k == Sub(exec, addr), a), 0)
  }

  /** When an operation succeeds in a sound ledger. */
  predicate Succeeds(s: Store, issuers: set<Addr>, op: Op) {
    match op
    case Pay(from, to, a) => CheckAmount(a) && from != to && a <= Load(s, Plain(from)).balance
    case ToExec(from, to, a) => CheckAmount(a) && from != to && a <= Load(s, Plain(from)).balance
    case Withdraw(from, to, a) => CheckAmount(a) && from != to && a <= Load(s, Sub(to, from)).balance
    case Freeze(addr, exec, a) => CheckAmount(a) && addr != exec && a <= Load(s, Sub(exec, addr)).balance
    case Activate(addr, exec, a) => CheckAmount(a) && addr != exec && a <= Load(s, Sub(exec, addr)).frozen
    case Move(from, to, exec, a, frozen) =>
      && CheckAmount(a) && from != to
      && a <= if frozen then Load(s, Sub(exec, from)).frozen else Load(s, Sub(exec, from)).balance
    case Issue(addr, exec, a) => CheckAmount(a) && addr != exec && exec in issuers
    case MintTo(addr, a) => CheckAmount(a) && Load(s, Plain(addr)).balance + a <= MAX_TOKEN_BALANCE
    case BurnFrom(addr, a) => CheckAmount(a) && a <= Load(s, Plain(addr)).balance
    case TakeFee(addr, a) => a <= Load(s, Plain(addr)).balance
    case Genesis(addr, a) => Load(s, Plain(addr)).balance + a <= MAX_TOKEN_BALANCE
    case GenesisExec(addr, a, exec) =>
      CheckAmount(a) && addr != exec && Load(s, Plain(exec)).balance + a <= MAX_TOKEN_BALANCE
  }

  /** The accounts an operation reads are in range, so no check of it is fooled by wrap-around. */
  lemma InRange(s: Store, contracts: set<Addr>, k: Key)
    requires Inv(s, contracts)
    ensures Load(s, k).addr == k.addr
    ensures 0 <= Load(s, k).balance <= MAX_TOKEN_BALANCE && 0 <= Load(s, k).frozen
    ensures k.Sub? ==>
              && Load(s, k).frozen <= MAX_TOKEN_BALANCE
              && Load(s, k).balance + Load(s, k).frozen <= Load(s, Plain(k.exec)).balance
  {
    hide Total;
    match k {
      case Plain(a) => SubInRange(s, contracts, a, a);
      case Sub(e, a) =>
        SubInRange(s, contracts, e, a);
        TotalBounds(s, contracts, Inside(e), k);
        assert Total(s, Inside(e)) <= Load(s, Plain(e)).balance;
    }
  }

  /** Subtracting an allowed amount from a balance in range does not wrap. */
  lemma NoWrap(balance: int, amount: int)
    requires 0 <= balance <= MAX_TOKEN_BALANCE && 0 <= amount < TWO_63
    ensures Wrap(balance - amount) == balance - amount
  {
    WrapInRange(balance - amount);
  }

  lemma TransferSucceeds(s: Store, contracts: set<Addr>, from: Addr, to: Addr, a: int)
    requires Inv(s, contracts)
    ensures Transfer(s, from, to, a).outcome.Done? <==>
            CheckAmount(a) && from != to && a <= Load(s, Plain(from)).balance
    ensures CheckTransfer(s, from, a).Done? <==> CheckAmount(a) && a <= Load(s, Plain(from)).balance
  {
    hide Total, Inv, Wrap;
    InRange(s, contracts, Plain(from));
    InRange(s, contracts, Plain(to));
    if CheckAmount(a) { NoWrap(Load(s, Plain(from)).balance, a); }
  }

  lemma WithdrawSucceeds(s: Store, contracts: set<Addr>, from: Addr, to: Addr, a: int)
    requires Inv(s, contracts)
    ensures TransferWithdraw(s, from, to, a).outcome.Done? <==>
            CheckAmount(a) && from != to && a <= Load(s, Sub(to, from)).balance
  {
    hide Total, Inv, Wrap, Transfer, CheckTransfer;
    TransferSucceeds(s, contracts, to, from, a);
    InRange(s, contracts, Sub(to, from));
    if CheckAmount(a) {
      NoWrap(Load(s, Sub(to, from)).balance, a);
      if from != to && a <= Load(s, Sub(to, from)).balance { CanAlwaysWithdraw(s, contracts, from, to, a); }
    }
  }

  lemma InsideSucceeds(s: Store, contracts: set<Addr>, issuers: set<Addr>, op: Op)
    requires Inv(s, contracts) && (op.Freeze? || op.Activate? || op.Move?)
    ensures Apply(s, issuers, op).outcome.Done? <==> Succeeds(s, issuers, op)
  {
    hide Total, Inv, Wrap;
    var k := Sub(op.exec, if op.Move? then op.from else op.addr);
    InRange(s, contracts, k);
    if CheckAmount(op.amount) {
      NoWrap(Load(s, k).balance, op.amount);
      NoWrap(Load(s, k).frozen, op.amount);
    }
  }

  lemma PlainSucceeds(s: Store, contracts: set<Addr>, issuers: set<Addr>, op: Op)
    requires Inv(s, contracts) && Legal(op, contracts)
    requires op.MintTo? || op.BurnFrom? || op.TakeFee? || op.Genesis? || op.GenesisExec?
    ensures Apply(s, issuers, op).outcome.Done? <==> Succeeds(s, issuers, op)
  {
    hide Total, Inv, Wrap, SafeAdd;
    var k := Plain(if op.GenesisExec? then op.exec else op.addr);
    InRange(s, contracts, k);
    if op.BurnFrom? || op.TakeFee? {
      if op.TakeFee? || CheckAmount(op.amount) { NoWrap(Load(s, k).balance, op.amount); }
    } else if op.MintTo? {
      if CheckAmount(op.amount) { SafeAddExact(Load(s, k).balance, op.amount); }
    } else {
      SafeAddExact(Load(s, k).balance, op.amount);
    }
  }

  /** An operation succeeds exactly under its condition on true amounts. */
  lemma SucceedsExactly(s: Store, contracts: set<Addr>, issuers: set<Addr>, op: Op)
    requires Inv(s, contracts) && Legal(op, contracts)
    ensures Apply(s, issuers, op).outcome.Done? <==> Succeeds(s, issuers, op)
  {
    hide Total, Inv, Wrap, SafeAdd, Transfer, TransferWithdraw;
    match op {
      case Pay(from, to, a) => TransferSucceeds(s, contracts, from, to, a);
      case ToExec(from, to, a) => TransferSucceeds(s, contracts, from, to, a);
      case Withdraw(from, to, a) => WithdrawSucceeds(s, contracts, from, to, a);
      case Issue(_, _, _) =>
      case Freeze(_, _, _) => InsideSucceeds(s, contracts, issuers, op);
      case Activate(_, _, _) => InsideSucceeds(s, contracts, issuers, op);
      case Move(_, _, _, _, _) => InsideSucceeds(s, contracts, issuers, op);
      case _ => PlainSucceeds(s, contracts, issuers, op);
    }
  }

  /** How an operation ends. */
  datatype Verdict = Fine | Refuses(error: Error) | Stops

  /** The checks of an operation in a sound ledger, on true amounts, in their order: what fails, and with
      which error. */
  function Checks(s: Store, issuers: set<Addr>, op: Op): seq<(bool, Error)> {
    match op
    case Pay(from, to, a) =>
      [(!CheckAmount(a), ErrAmount), (from == to, ErrSendSameToRecv), (Load(s, Plain(from)).balance < a, ErrNoBalance)]
    case ToExec(from, to, a) =>
      [(!CheckAmount(a), ErrAmount), (from == to, ErrSendSameToRecv), (Load(s, Plain(from)).balance < a, ErrNoBalance)]
    case Withdraw(from, to, a) =>
      [(!CheckAmount(a), ErrAmount), (Load(s, Plain(to)).balance < a, ErrNoBalance), (from == to, ErrSendSameToRecv),
       (Load(s, Sub(to, from)).balance < a, ErrNoBalance)]
    case Freeze(addr, exec, a) =>
      [(addr == exec, ErrSendSameToRecv), (!CheckAmount(a), ErrAmount),
       (Load(s, Sub(exec, addr)).balance < a, ErrNoBalance)]
    case Activate(addr, exec, a) =>
      [(addr == exec, ErrSendSameToRecv), (!CheckAmount(a), ErrAmount),
       (Load(s, Sub(exec, addr)).frozen < a, ErrNoBalance)]
    case Move(from, to, exec, a, frozen) =>
      [(from == to, ErrSendSameToRecv), (!CheckAmount(a), ErrAmount),
       ((if frozen then Load(s, Sub(exec, from)).frozen else Load(s, Sub(exec, from)).balance) < a, ErrNoBalance)]
    case Issue(addr, exec, a) =>
      [(addr == exec, ErrSendSameToRecv), (exec !in issuers, ErrNotAllowDeposit), (!CheckAmount(a), ErrAmount)]
    case MintTo(addr, a) =>
      [(!CheckAmount(a), ErrAmount), (MAX_TOKEN_BALANCE < Load(s, Plain(addr)).balance + a, ErrAmount)]
    case BurnFrom(addr, a) => [(!CheckAmount(a), ErrAmount), (Load(s, Plain(addr)).balance < a, ErrNoBalance)]
    case TakeFee(addr, a) => [(Load(s, Plain(addr)).balance < a, ErrNoBalance)]
    case Genesis(addr, a) => [(MAX_TOKEN_BALANCE < Load(s, Plain(addr)).balance + a, ErrAmount)]
    case GenesisExec(addr, a, exec) => [(MAX_TOKEN_BALANCE < Load(s, Plain(exec)).balance + a, ErrAmount)]
  }

  function FirstFault(checks: seq<(bool, Error)>): Verdict {
    if checks == [] then Fine else if checks[0].0 then Refuses(checks[0].1) else FirstFault(checks[1..])
  }

  /** The first check that fails decides; a genesis deposit that its contract cannot take stops the node. */
  function VerdictOn(s: Store, issuers: set<Addr>, op: Op): Verdict {
    var v := FirstFault(Checks(s, issuers, op));
    if v.Fine? && op.GenesisExec? && (op.addr == op.exec || !CheckAmount(op.amount)) then Stops else v
  }

  ghost predicate EndsAs(o: Outcome, v: Verdict) {
    match v
    case Fine => o.Done?
    case Refuses(e) => o == Failed(e)
    case Stops => o.Panicked?
  }

  lemma FaultIs(c: seq<(bool, Error)>)
    requires 1 <= |c| <= 4
    ensures FirstFault(c) == if c[0].0 then Refuses(c[0].1)
                             else if 1 < |c| && c[1].0 then Refuses(c[1].1)
                             else if 2 < |c| && c[2].0 then Refuses(c[2].1)
                             else if 3 < |c| && c[3].0 then Refuses(c[3].1) else Fine
    decreases |c|
  {
    if 1 < |c| { FaultIs(c[1..]); }
  }

  lemma PaymentEnds(s: Store, contracts: set<Addr>, issuers: set<Addr>, op: Op)
    requires Inv(s, contracts) && Legal(op, contracts) && (op.Pay? || op.ToExec? || op.Withdraw?)
    ensures EndsAs(Apply(s, issuers, op).outcome, VerdictOn(s, issuers, op))
  {
    hide Total, Inv, Wrap, FirstFault;
    FaultIs(Checks(s, issuers, op));
    SucceedsExactly(s, contracts, issuers, op);
    CannotPanic(s, contracts, issuers, op);
    if op.Withdraw? {
      PayerInRange(s, contracts, op.to, op.from, op.amount);
      InsideInRange(s, contracts, op.to, op.from, op.amount);
    } else {
      PayerInRange(s, contracts, op.from, op.to, op.amount);
    }
  }

  lemma InsideEnds(s: Store, contracts: set<Addr>, issuers: set<Addr>, op: Op)
    requires Inv(s, contracts) && Legal(op, contracts) && (op.Freeze? || op.Activate? || op.Move? || op.Issue?)
    ensures EndsAs(Apply(s, issuers, op).outcome, VerdictOn(s, issuers, op))
  {
    hide Total, Inv, Wrap, FirstFault;
    FaultIs(Checks(s, issuers, op));
    if !op.Issue? { InsideInRange(s, contracts, op.exec, if op.Move? then op.from else op.addr, op.amount); }
  }

  lemma PlainEnds(s: Store, contracts: set<Addr>, issuers: set<Addr>, op: Op)
    requires Inv(s, contracts) && Legal(op, contracts)
    requires op.MintTo? || op.BurnFrom? || op.TakeFee? || op.Genesis? || op.GenesisExec?
    ensures EndsAs(Apply(s, issuers, op).outcome, VerdictOn(s, issuers, op))
  {
    hide Total, Inv, Wrap, SafeAdd, FirstFault;
    FaultIs(Checks(s, issuers, op));
    var k := Plain(if op.GenesisExec? then op.exec else op.addr);
    InRange(s, contracts, k);
    if op.TakeFee? { NoWrap(Load(s, k).balance, op.amount); }
    if op.Genesis? || op.GenesisExec? || (op.MintTo? && CheckAmount(op.amount)) {
      SafeAddExact(Load(s, k).balance, op.amount);
    }
  }

  /** Every operation ends as its checks say: with which error, or with success, or by stopping the node. */
  lemma EndsExactly(s: Store, contracts: set<Addr>, issuers: set<Addr>, op: Op)
    requires Inv(s, contracts) && Legal(op, contracts)
    ensures EndsAs(Apply(s, issuers, op).outcome, VerdictOn(s, issuers, op))
  {
    hide Inv, Legal, EndsAs, VerdictOn, Apply;
    if op.Pay? || op.ToExec? || op.Withdraw? {
      PaymentEnds(s, contracts, issuers, op);
    } else if op.Freeze? || op.Activate? || op.Move? || op.Issue? {
      InsideEnds(s, contracts, issuers, op);
    } else {
      PlainEnds(s, contracts, issuers, op);
    }
  }

  lemma PayerInRange(s: Store, contracts: set<Addr>, from: Addr, to: Addr, a: int)
    requires Inv(s, contracts)
    ensures Load(s, Plain(from)).addr == from && Load(s, Plain(to)).addr == to
    ensures CheckAmount(a) ==> Wrap(Load(s, Plain(from)).balance - a) == Load(s, Plain(from)).balance - a
  {
    hide Total, Inv, Wrap;
    InRange(s, contracts, Plain(from));
    InRange(s, contracts, Plain(to));
    if CheckAmount(a) { NoWrap(Load(s, Plain(from)).balance, a); }
  }

  lemma InsideInRange(s: Store, contracts: set<Addr>, exec: Addr, addr: Addr, a: int)
    requires Inv(s, contracts)
    ensures CheckAmount(a) ==>
              && Wrap(Load(s, Sub(exec, addr)).balance - a) == Load(s, Sub(exec, addr)).balance - a
              && Wrap(Load(s, Sub(exec, addr)).frozen - a) == Load(s, Sub(exec, addr)).frozen - a
  {
    hide Total, Inv, Wrap;
    InRange(s, contracts, Sub(exec, addr));
    if CheckAmount(a) {
      NoWrap(Load(s, Sub(exec, addr)).balance, a);
      NoWrap(Load(s, Sub(exec, addr)).frozen, a);
    }
  }

  lemma CannotPanic(s: Store, contracts: set<Addr>, issuers: set<Addr>, op: Op)
    requires Inv(s, contracts) && !op.GenesisExec?
    ensures !Apply(s, issuers, op).outcome.Panicked?
  {
    PanicsExactly(s, issuers, op);
  }

  /** `s'` is `s` with every account changed by its effect, exactly. */
  ghost predicate Changed(s: Store, op: Op, s': Store) {
    forall k ::
      Load(s', k) ==
      Account(k.addr, Load(s, k).balance + EffectOn(op, k).balance, Load(s, k).frozen + EffectOn(op, k).frozen)
  }

  lemma OwnAddress(s: Store, contracts: set<Addr>)
    requires Sound(s, contracts)
    ensures forall k :: Load(s, k).addr == k.addr
  {
  }

  lemma TransferFrozen(s: Store, from: Addr, to: Addr, a: int)
    requires Load(s, Plain(from)).addr == from && Load(s, Plain(to)).addr == to
    ensures forall k :: Load(Transfer(s, from, to, a).store, k).frozen == Load(s, k).frozen
  {
    hide Wrap;
  }

  lemma PayExact(s: Store, contracts: set<Addr>, from: Addr, to: Addr, a: int)
    requires Sound(s, contracts) && Total(s, AllPlain) <= MAX_TOKEN_BALANCE && Transfer(s, from, to, a).outcome.Done?
    ensures Changed(s, Pay(from, to, a), Transfer(s, from, to, a).store)
  {
    hide Total, Transfer, Sound;
    TransferKeeps(s, contracts, from, to, a);
    OwnAddress(s, contracts);
    OwnAddress(Transfer(s, from, to, a).store, contracts);
    TransferFrozen(s, from, to, a);
  }

  lemma ToExecExact(s: Store, contracts: set<Addr>, from: Addr, to: Addr, a: int)
    requires Inv(s, contracts) && from !in contracts && to in contracts && TransferToExec(s, from, to, a).outcome.Done?
    ensures Changed(s, ToExec(from, to, a), TransferToExec(s, from, to, a).store)
  {
    hide Total, Wrap, Sound, Transfer, Shift;
    var r := Transfer(s, from, to, a);
    PayExact(s, contracts, from, to, a);
    PayKeeps(s, contracts, from, to, a);
    TransferKeeps(s, contracts, from, to, a);
    InsideBound(s, r.store, contracts, to, a);
    SubSound(r.store, contracts, to, from);
    SubDelta(r.store, contracts, to, from, a, 0);
  }

  /** After a contract's plain balance went up by `a`, so may the total inside it. */
  lemma InsideBound(s: Store, s1: Store, contracts: set<Addr>, exec: Addr, a: int)
    requires Inv(s, contracts) && Inv(s1, contracts)
    requires Load(s1, Plain(exec)).balance == Load(s, Plain(exec)).balance + a
    requires Total(s1, Inside(exec)) == Total(s, Inside(exec))
    ensures Total(s1, Inside(exec)) + a <= MAX_TOKEN_BALANCE
  {
    hide Total;
    assert Total(s, Inside(exec)) <= Load(s, Plain(exec)).balance;
    TotalBounds(s1, contracts, AllPlain, Plain(exec));
  }

  lemma WithdrawExact(s: Store, contracts: set<Addr>, from: Addr, to: Addr, a: int)
    requires Inv(s, contracts) && to in contracts && TransferWithdraw(s, from, to, a).outcome.Done?
    ensures Changed(s, Withdraw(from, to, a), TransferWithdraw(s, from, to, a).store)
  {
    hide Total, Wrap, Sound, Transfer, Shift;
    WithdrawSucceeds(s, contracts, from, to, a);
    InRange(s, contracts, Sub(to, from));
    SubInRange(s, contracts, to, from);
    OwnAddress(s, contracts);
    SubDelta(s, contracts, to, from, -a, 0);
    PayExact(ExecWithdraw(s, to, from, a).store, contracts, to, from, a);
  }

  lemma InsideExact(s: Store, contracts: set<Addr>, issuers: set<Addr>, op: Op)
    requires Inv(s, contracts) && Legal(op, contracts) && (op.Freeze? || op.Activate?)
    requires Apply(s, issuers, op).outcome.Done?
    ensures Changed(s, op, Apply(s, issuers, op).store)
  {
    hide Total, Wrap, Sound, Shift;
    InsideSucceeds(s, contracts, issuers, op);
    SubInRange(s, contracts, op.exec, op.addr);
    OwnAddress(s, contracts);
    SubDelta(s, contracts, op.exec, op.addr, if op.Freeze? then -op.amount else op.amount,
             if op.Freeze? then op.amount else -op.amount);
  }

  lemma MoveExact(s: Store, contracts: set<Addr>, from: Addr, to: Addr, exec: Addr, a: int, frozen: bool)
    requires Inv(s, contracts) && exec in contracts && ExecMove(s, from, to, exec, a, frozen).outcome.Done?
    ensures Changed(s, Move(from, to, exec, a, frozen), ExecMove(s, from, to, exec, a, frozen).store)
  {
    hide Total, Wrap, Sound, Shift, ExecMove;
    var db, df := if frozen then 0 else -a, if frozen then -a else 0;
    InsideSucceeds(s, contracts, {}, Move(from, to, exec, a, frozen));
    MoveIsTwoShifts(s, contracts, from, to, exec, a, frozen);
    SubInRange(s, contracts, exec, from);
    SubInRange(s, contracts, exec, to);
    OwnAddress(s, contracts);
    SubDelta(s, contracts, exec, from, db, df);
    SubDelta(Shift(s, exec, from, db, df).store, contracts, exec, to, a, 0);
  }

  function Credited(s: Store, addr: Addr, d: int): Store {
    SavePlain(s, Load(s, Plain(addr)).(balance := Load(s, Plain(addr)).balance + d))
  }

  /** Issuing is a credit of the contract and a credit inside it. */
  lemma CreditIsTwoSteps(s: Store, contracts: set<Addr>, issuers: set<Addr>, op: Op)
    requires Inv(s, contracts) && Legal(op, contracts) && (op.Issue? || op.GenesisExec?)
    requires Apply(s, issuers, op).outcome.Done? && Total(s, AllPlain) + Issued(op) <= MAX_TOKEN_BALANCE
    ensures 0 <= op.amount
    ensures Apply(s, issuers, op).store
            == Shift(Credited(s, op.exec, op.amount), op.exec, op.addr,
                     if op.Issue? then 0 else op.amount, if op.Issue? then op.amount else 0).store
  {
    hide Total, Wrap, Sound, Shift, SafeAdd, Inv;
    SafeAddInRange(s, contracts, op.exec, op.amount);
    DeltaKeeps(s, contracts, op.exec, op.amount);
  }

  lemma SafeAddInRange(s: Store, contracts: set<Addr>, addr: Addr, amount: int)
    requires Inv(s, contracts)
    ensures 0 <= Load(s, Plain(addr)).balance
    ensures -TWO_63 <= amount < TWO_63 && SafeAdd(Load(s, Plain(addr)).balance, amount).0 ==>
              SafeAdd(Load(s, Plain(addr)).balance, amount).1 == Load(s, Plain(addr)).balance + amount
  {
    hide Total, Inv, SafeAdd;
    InRange(s, contracts, Plain(addr));
    if -TWO_63 <= amount < TWO_63 { SafeAddExact(Load(s, Plain(addr)).balance, amount); }
  }

  lemma CreditBoth(s: Store, contracts: set<Addr>, exec: Addr, addr: Addr, amount: int, db: int, df: int)
    requires Inv(s, contracts) && exec in contracts && 0 <= amount && Total(s, AllPlain) + amount <= MAX_TOKEN_BALANCE
    requires 0 <= db && 0 <= df && db + df == amount
    ensures var s1 := Credited(s, exec, amount);
            var s2 := Shift(s1, exec, addr, db, df).store;
            && (forall k :: k != Sub(exec, addr) ==> Load(s2, k) == Load(s1, k))
            && Load(s2, Sub(exec, addr)) ==
               Account(addr, Load(s1, Sub(exec, addr)).balance + db, Load(s1, Sub(exec, addr)).frozen + df)
  {
    hide Total, Wrap, Sound, Shift;
    InRange(s, contracts, Plain(exec));
    DeltaKeeps(s, contracts, exec, amount);
    var s1 := Credited(s, exec, amount);
    InsideBound(s, s1, contracts, exec, amount);
    SubSound(s1, contracts, exec, addr);
    SubDelta(s1, contracts, exec, addr, db, df);
  }

  lemma CreditExact(s: Store, contracts: set<Addr>, issuers: set<Addr>, op: Op)
    requires Inv(s, contracts) && Legal(op, contracts) && (op.Issue? || op.GenesisExec?)
    requires Apply(s, issuers, op).outcome.Done? && Total(s, AllPlain) + Issued(op) <= MAX_TOKEN_BALANCE
    ensures Changed(s, op, Apply(s, issuers, op).store)
  {
    hide Total, Sound, Backed, Shift, Apply, Credited;
    CreditIsTwoSteps(s, contracts, issuers, op);
    OwnAddress(s, contracts);
    CreditFrozen(s, op.exec, op.amount);
    CreditBoth(s, contracts, op.exec, op.addr, op.amount, if op.Issue? then 0 else op.amount,
               if op.Issue? then op.amount else 0);
  }

  lemma CreditFrozen(s: Store, addr: Addr, d: int)
    requires Load(s, Plain(addr)).addr == addr
    ensures forall k ::
              Load(Credited(s, addr, d), k) ==
              if k == Plain(addr) then Account(addr, Load(s, k).balance + d, Load(s, k).frozen) else Load(s, k)
  {
  }

  /** Mint, burn, fee and genesis change one plain balance. */
  lemma PlainIsOneStep(s: Store, contracts: set<Addr>, issuers: set<Addr>, op: Op)
    requires Inv(s, contracts) && Legal(op, contracts)
    requires op.MintTo? || op.BurnFrom? || op.TakeFee? || op.Genesis?
    requires Apply(s, issuers, op).outcome.Done?
    ensures Apply(s, issuers, op).store == Credited(s, op.addr, Issued(op))
  {
    hide Total, Wrap, Sound, SafeAdd, Inv;
    InRange(s, contracts, Plain(op.addr));
    SafeAddInRange(s, contracts, op.addr, op.amount);
    if op.BurnFrom? || op.TakeFee? { NoWrap(Load(s, Plain(op.addr)).balance, op.amount); }
  }

  lemma PlainExact(s: Store, contracts: set<Addr>, issuers: set<Addr>, op: Op)
    requires Inv(s, contracts) && Legal(op, contracts)
    requires op.MintTo? || op.BurnFrom? || op.TakeFee? || op.Genesis?
    requires Apply(s, issuers, op).outcome.Done?
    ensures Changed(s, op, Apply(s, issuers, op).store)
  {
    hide Total, Sound, Apply, Credited;
    PlainIsOneStep(s, contracts, issuers, op);
    OwnAddress(s, contracts);
    CreditFrozen(s, op.addr, Issued(op));
  }

  /** A successful operation changes every account by exactly its effect: no account is missed, no
      other one touched, and nothing wraps. */
  lemma OpExact(s: Store, contracts: set<Addr>, issuers: set<Addr>, op: Op)
    requires Inv(s, contracts) && Legal(op, contracts)
    requires Apply(s, issuers, op).outcome.Done? && Total(s, AllPlain) + Issued(op) <= MAX_TOKEN_BALANCE
    ensures Changed(s, op, Apply(s, issuers, op).store)
  {
    hide Total, Wrap, Sound, Shift, Transfer, EffectOn, Changed;
    match op
    case Pay(from, to, a) => PayExact(s, contracts, from, to, a);
    case ToExec(from, to, a) => ToExecExact(s, contracts, from, to, a);
    case Withdraw(from, to, a) => WithdrawExact(s, contracts, from, to, a);
    case Freeze(_, _, _) => InsideExact(s, contracts, issuers, op);
    case Activate(_, _, _) => InsideExact(s, contracts, issuers, op);
    case Move(from, to, exec, a, frozen) => MoveExact(s, contracts, from, to, exec, a, frozen);
    case Issue(_, _, _) => CreditExact(s, contracts, issuers, op);
    case GenesisExec(_, _, _) => CreditExact(s, contracts, issuers, op);
    case _ => PlainExact(s, contracts, issuers, op);
  }

  // ----- Operations that take each other back -----

  ghost predicate SameAccounts(s: Store, s': Store) {
    forall k :: Load(s', k) == Load(s, k)
  }

  /** The operation that takes `op` back, for those that have one. */
  function Undo(op: Op): (u: Op)
    requires op.ToExec? || op.Withdraw? || op.Freeze? || op.Activate? || op.MintTo?
    ensures forall k :: EffectOn(u, k) == Delta(-EffectOn(op, k).balance, -EffectOn(op, k).frozen)
  {
    match op
    case ToExec(from, to, a) => Withdraw(from, to, a)
    case Withdraw(from, to, a) => ToExec(from, to, a)
    case Freeze(addr, exec, a) => Activate(addr, exec, a)
    case Activate(addr, exec, a) => Freeze(addr, exec, a)
    case MintTo(addr, a) => BurnFrom(addr, a)
  }

  /** After a success, the operation that takes it back succeeds too and restores every account. */
  lemma UndoRestores(s: Store, contracts: set<Addr>, issuers: set<Addr>, op: Op)
    requires Inv(s, contracts) && Legal(op, contracts) && Apply(s, issuers, op).outcome.Done?
    requires op.ToExec? || op.Withdraw? || op.Freeze? || op.Activate? || op.MintTo?
    requires Legal(Undo(op), contracts) && Total(s, AllPlain) + Issued(op) <= MAX_TOKEN_BALANCE
    ensures var s1 := Apply(s, issuers, op).store;
            && Apply(s1, issuers, Undo(op)).outcome.Done?
            && SameAccounts(s, Apply(s1, issuers, Undo(op)).store)
  {
    hide Total, Inv, Apply, Legal, Issued;
    var s1 := Apply(s, issuers, op).store;
    OpExact(s, contracts, issuers, op);
    OpKeeps(s, contracts, issuers, op);
    SucceedsExactly(s, contracts, issuers, op);
    BackIsPossible(s, contracts, issuers, op, s1);
    SucceedsExactly(s1, contracts, issuers, Undo(op));
    IssuedBack(s, contracts, s1, op);
    OpExact(s1, contracts, issuers, Undo(op));
    BackIsSame(s, contracts, op, s1, Apply(s1, issuers, Undo(op)).store);
  }

  lemma BackIsPossible(s: Store, contracts: set<Addr>, issuers: set<Addr>, op: Op, s1: Store)
    requires Inv(s, contracts) && Succeeds(s, issuers, op) && Changed(s, op, s1)
    requires op.ToExec? || op.Withdraw? || op.Freeze? || op.Activate? || op.MintTo?
    ensures Succeeds(s1, issuers, Undo(op))
  {
    hide Inv, Changed;
    match op {
      case ToExec(from, to, a) => EffectAt(s, contracts, op, s1, Sub(to, from));
      case Withdraw(from, to, a) => EffectAt(s, contracts, op, s1, Plain(from));
      case Freeze(addr, exec, a) => EffectAt(s, contracts, op, s1, Sub(exec, addr));
      case Activate(addr, exec, a) => EffectAt(s, contracts, op, s1, Sub(exec, addr));
      case MintTo(addr, a) => EffectAt(s, contracts, op, s1, Plain(addr));
    }
  }

  lemma EffectAt(s: Store, contracts: set<Addr>, op: Op, s1: Store, k: Key)
    requires Inv(s, contracts) && Changed(s, op, s1)
    ensures 0 <= Load(s, k).balance && 0 <= Load(s, k).frozen
    ensures Load(s1, k).balance == Load(s, k).balance + EffectOn(op, k).balance
    ensures Load(s1, k).frozen == Load(s, k).frozen + EffectOn(op, k).frozen
  {
    hide Inv, EffectOn;
    InRange(s, contracts, k);
  }

  lemma IssuedBack(s: Store, contracts: set<Addr>, s1: Store, op: Op)
    requires Inv(s, contracts) && Keeps(s, contracts, s1, Issued(op))
    requires op.ToExec? || op.Withdraw? || op.Freeze? || op.Activate? || op.MintTo?
    ensures Total(s1, AllPlain) + Issued(Undo(op)) <= MAX_TOKEN_BALANCE
  {
    hide Total;
  }

  lemma BackIsSame(s: Store, contracts: set<Addr>, op: Op, s1: Store, s2: Store)
    requires Inv(s, contracts) && Changed(s, op, s1)
    requires op.ToExec? || op.Withdraw? || op.Freeze? || op.Activate? || op.MintTo?
    requires Changed(s1, Undo(op), s2)
    ensures SameAccounts(s, s2)
  {
    hide Total, EffectOn;
    OwnAddress(s, contracts);
    forall k
      ensures Load(s2, k) == Load(s, k)
    {
      assert EffectOn(Undo(op), k) == Delta(-EffectOn(op, k).balance, -EffectOn(op, k).frozen);
    }
  }

  // ----- All laws of an operation together -----

  /** What holds of `s'` and `o` when `op` on `s` gives them: an error changes nothing, the receipt is
      the change, and in a backed ledger a legal operation succeeds exactly under its condition, and
      then changes every account exactly and keeps everything backed. */
  ghost predicate Lawful(s: Store, contracts: set<Addr>, issuers: set<Addr>, op: Op, s': Store, o: Outcome) {
    && (o.Failed? ==> s' == s)
    && (o.Done? ==> s' == Overlay(s, o.kvs))
    && (Inv(s, contracts) ==> Names(op, o))
    && (Inv(s, contracts) && Legal(op, contracts) ==> (o.Done? <==> Succeeds(s, issuers, op)))
    && (Inv(s, contracts) && Legal(op, contracts) ==> EndsAs(o, VerdictOn(s, issuers, op)))
    && (Inv(s, contracts) && Legal(op, contracts) && o.Done? && Total(s, AllPlain) + Issued(op) <= MAX_TOKEN_BALANCE ==>
          Keeps(s, contracts, s', Issued(op)) && Changed(s, op, s'))
  }

  lemma Laws(s: Store, contracts: set<Addr>, issuers: set<Addr>, op: Op)
    ensures Lawful(s, contracts, issuers, op, Apply(s, issuers, op).store, Apply(s, issuers, op).outcome)
  {
    hide Apply, Legal, Succeeds, Issued, Total, Keeps, Changed, Names, EndsAs, VerdictOn;
    ErrorKeepsStore(s, issuers, op);
    OpReceipted(s, issuers, op);
    if Inv(s, contracts) { OpNames(s, issuers, op); }
    if Inv(s, contracts) && Legal(op, contracts) {
      SucceedsExactly(s, contracts, issuers, op);
      EndsExactly(s, contracts, issuers, op);
      if Apply(s, issuers, op).outcome.Done? && Total(s, AllPlain) + Issued(op) <= MAX_TOKEN_BALANCE {
        OpKeeps(s, contracts, issuers, op);
        OpExact(s, contracts, issuers, op);
      }
    }
  }

  // ----- The one-sided steps -----

  /** Exactly one account changes, by `db` and `df`. */
  ghost predicate Shifted(s: Store, k: Key, db: int, df: int, s': Store) {
    forall x ::
      Load(s', x) ==
      if x == k then Account(k.addr, Load(s, k).balance + db, Load(s, k).frozen + df) else Load(s, x)
  }

  /** Adding an allowed amount to a balance in range does not wrap. */
  lemma NoWrapUp(balance: int, amount: int)
    requires 0 <= balance <= MAX_TOKEN_BALANCE && CheckAmount(amount)
    ensures Wrap(balance + amount) == balance + amount
  {
    WrapInRange(balance + amount);
  }

  /** Crediting a contract's plain balance alone keeps every contract backed, and the ledger within
      its limit exactly if the total stays there. */
  lemma DepositBalanceExact(s: Store, contracts: set<Addr>, exec: Addr, a: int)
    requires Inv(s, contracts)
    ensures DepositBalance(s, exec, a).outcome.Done? <==> CheckAmount(a)
    ensures var s' := DepositBalance(s, exec, a).store;
            CheckAmount(a) ==>
              && Shifted(s, Plain(exec), a, 0, s') && Sound(s', contracts) && Backed(s')
              && (Inv(s', contracts) <==> Total(s, AllPlain) + a <= MAX_TOKEN_BALANCE)
  {
    hide Total, Wrap;
    if CheckAmount(a) {
      var k := Plain(exec);
      InRange(s, contracts, k);
      NoWrapUp(Load(s, k).balance, a);
      var acc := Load(s, k).(balance := Load(s, k).balance + a);
      TotalSave(s, AllPlain, k, acc);
      forall e ensures Total(s[k := acc], Inside(e)) <= Load(s[k := acc], Plain(e)).balance {
        TotalSave(s, Inside(e), k, acc);
        assert Total(s, Inside(e)) <= Load(s, Plain(e)).balance;
      }
    }
  }

  lemma SubTotals(s: Store, exec: Addr, addr: Addr, acc: Account, d: int)
    requires acc.balance + acc.frozen == Load(s, Sub(exec, addr)).balance + Load(s, Sub(exec, addr)).frozen + d
    ensures forall e :: Total(s[Sub(exec, addr) := acc], Inside(e)) == Total(s, Inside(e)) + if e == exec then d else 0
  {
    hide Total;
    forall e ensures Total(s[Sub(exec, addr) := acc], Inside(e)) == Total(s, Inside(e)) + if e == exec then d else 0 {
      TotalSave(s, Inside(e), Sub(exec, addr), acc);
    }
  }

  /** Crediting a sub-account alone keeps the contract backed exactly if its plain balance covers the
      new total inside. */
  lemma ExecDepositExact(s: Store, contracts: set<Addr>, addr: Addr, exec: Addr, a: int)
    requires Inv(s, contracts)
    ensures ExecDeposit(s, addr, exec, a).outcome.Done? <==> addr != exec && CheckAmount(a)
    ensures addr == exec ==> ExecDeposit(s, addr, exec, a) == Fail(s, ErrSendSameToRecv)
    ensures addr != exec && !CheckAmount(a) ==> ExecDeposit(s, addr, exec, a) == Fail(s, ErrAmount)
    ensures var s' := ExecDeposit(s, addr, exec, a).store;
            addr != exec && CheckAmount(a) ==>
              && Shifted(s, Sub(exec, addr), a, 0, s')
              && (Backed(s') <==> Total(s, Inside(exec)) + a <= Load(s, Plain(exec)).balance)
  {
    hide Total, Wrap;
    if addr != exec && CheckAmount(a) {
      var k := Sub(exec, addr);
      InRange(s, contracts, k);
      NoWrapUp(Load(s, k).balance, a);
      WrapInRange(Load(s, k).frozen);
      var acc := Account(addr, Load(s, k).balance + a, Load(s, k).frozen);
      SubTotals(s, exec, addr, acc, a);
      BackedExactly(s, s[k := acc], exec, a);
    }
  }

  lemma BackedExactly(s: Store, s': Store, exec: Addr, d: int)
    requires Backed(s) && forall e :: Total(s', Inside(e)) == Total(s, Inside(e)) + if e == exec then d else 0
    requires forall e :: Load(s', Plain(e)) == Load(s, Plain(e))
    ensures Backed(s') <==> Total(s, Inside(exec)) + d <= Load(s, Plain(exec)).balance
  {
    hide Total;
    if Total(s, Inside(exec)) + d <= Load(s, Plain(exec)).balance {
      forall e ensures Total(s', Inside(e)) <= Load(s', Plain(e)).balance {
        assert Total(s, Inside(e)) <= Load(s, Plain(e)).balance;
      }
    }
    if Backed(s') { assert Total(s', Inside(exec)) <= Load(s', Plain(exec)).balance; }
  }

  /** Debiting a sub-account alone always keeps everything backed. */
  lemma ExecWithdrawExact(s: Store, contracts: set<Addr>, exec: Addr, addr: Addr, a: int)
    requires Inv(s, contracts)
    ensures ExecWithdraw(s, exec, addr, a).outcome.Done? <==>
            addr != exec && CheckAmount(a) && a <= Load(s, Sub(exec, addr)).balance
    ensures addr == exec ==> ExecWithdraw(s, exec, addr, a) == Fail(s, ErrSendSameToRecv)
    ensures addr != exec && !CheckAmount(a) ==> ExecWithdraw(s, exec, addr, a) == Fail(s, ErrAmount)
    ensures addr != exec && CheckAmount(a) && Load(s, Sub(exec, addr)).balance < a ==>
              ExecWithdraw(s, exec, addr, a) == Fail(s, ErrNoBalance)
    ensures var s' := ExecWithdraw(s, exec, addr, a).store;
            ExecWithdraw(s, exec, addr, a).outcome.Done? ==> Shifted(s, Sub(exec, addr), -a, 0, s') && Backed(s')
  {
    hide Total, Wrap;
    if addr != exec && CheckAmount(a) {
      var k := Sub(exec, addr);
      InRange(s, contracts, k);
      NoWrap(Load(s, k).balance, a);
      WrapInRange(Load(s, k).frozen);
      var acc := Account(addr, Load(s, k).balance - a, Load(s, k).frozen);
      SubTotals(s, exec, addr, acc, -a);
      BackedExactly(s, s[k := acc], exec, -a);
      assert Total(s, Inside(exec)) <= Load(s, Plain(exec)).balance;
    }
  }
}
