/** The account database object: the ledger's operations as calls that change its store, each with
    the laws of the operation. */
module AccountDbs {
  import L = Ledgers
  import opened Ledgers
  import opened LedgerEffects

  class AccountDb {
    var db: Store
    const issuers: set<Addr>
    ghost const contracts: set<Addr>

    /** Sound, within its limit, and every contract backed. */
    ghost predicate Valid()
      reads this
    {
      Inv(db, contracts)
    }

    constructor (issuers: set<Addr>, ghost contracts: set<Addr>)
      ensures db == map[] && this.issuers == issuers && this.contracts == contracts && Valid()
    {
      this.issuers, this.contracts, db := issuers, contracts, map[];
    }

    method Transfer(from: Addr, to: Addr, amount: int) returns (o: Outcome)
      modifies this
      ensures Result(db, o) == L.Transfer(old(db), from, to, amount)
      ensures Lawful(old(db), contracts, issuers, Pay(from, to, amount), db, o)
    {
      hide Lawful;
      Laws(db, contracts, issuers, Pay(from, to, amount));
      if !CheckAmount(amount) {
        return Failed(ErrAmount);
      }
      var accFrom, accTo := Load(db, Plain(from)), Load(db, Plain(to));
      if accFrom.addr == accTo.addr {
        return Failed(ErrSendSameToRecv);
      }
      if Wrap(accFrom.balance - amount) >= 0 {
        accFrom := accFrom.(balance := Wrap(accFrom.balance - amount));
        accTo := accTo.(balance := Wrap(accTo.balance + amount));
        db := db[Plain(accFrom.addr) := accFrom];
        db := db[Plain(accTo.addr) := accTo];
        return Done([(Plain(accFrom.addr), accFrom), (Plain(accTo.addr), accTo)]);
      }
      return Failed(ErrNoBalance);
    }

    method DepositBalance(exec: Addr, amount: int) returns (o: Outcome)
      modifies this
      ensures Result(db, o) == L.DepositBalance(old(db), exec, amount)
      ensures if CheckAmount(amount) then o.Done? else o == Failed(ErrAmount) && db == old(db)
      ensures old(Valid()) && o.Done? ==> Shifted(old(db), Plain(exec), amount, 0, db) && Backed(db)
      ensures old(Valid()) && o.Done? ==> (Valid() <==> Total(old(db), AllPlain) + amount <= MAX_TOKEN_BALANCE)
    {
      hide Total, Shifted, Inv, Backed, Wrap;
      if Valid() { DepositBalanceExact(db, contracts, exec, amount); }
      if !CheckAmount(amount) {
        return Failed(ErrAmount);
      }
      var acc := Load(db, Plain(exec));
      acc := acc.(balance := Wrap(acc.balance + amount));
      db := db[Plain(acc.addr) := acc];
      return Done([(Plain(acc.addr), acc)]);
    }

    method Mint(addr: Addr, amount: int) returns (o: Outcome)
      modifies this
      ensures Result(db, o) == L.Mint(old(db), addr, amount)
      ensures Lawful(old(db), contracts, issuers, MintTo(addr, amount), db, o)
    {
      hide Lawful;
      Laws(db, contracts, issuers, MintTo(addr, amount));
      if !CheckAmount(amount) {
        return Failed(ErrAmount);
      }
      o := GenesisInit(addr, amount);
    }

    method Burn(addr: Addr, amount: int) returns (o: Outcome)
      modifies this
      ensures Result(db, o) == L.Burn(old(db), addr, amount)
      ensures Lawful(old(db), contracts, issuers, BurnFrom(addr, amount), db, o)
    {
      hide Lawful;
      Laws(db, contracts, issuers, BurnFrom(addr, amount));
      if !CheckAmount(amount) {
        return Failed(ErrAmount);
      }
      var acc := Load(db, Plain(addr));
      if acc.balance < amount {
        return Failed(ErrNoBalance);
      }
      acc := acc.(balance := Wrap(acc.balance - amount));
      db := db[Plain(acc.addr) := acc];
      return Done([(Plain(acc.addr), acc)]);
    }

    method ProcessFee(addr: Addr, fee: int) returns (o: Outcome)
      modifies this
      ensures Result(db, o) == L.ProcessFee(old(db), addr, fee)
      ensures Lawful(old(db), contracts, issuers, TakeFee(addr, fee), db, o)
    {
      hide Lawful;
      Laws(db, contracts, issuers, TakeFee(addr, fee));
      var acc := Load(db, Plain(addr));
      if Wrap(acc.balance - fee) >= 0 {
        acc := acc.(balance := Wrap(acc.balance - fee));
        db := db[Plain(acc.addr) := acc];
        return Done([(Plain(acc.addr), acc)]);
      }
      return Failed(ErrNoBalance);
    }

    method ExecFrozen(addr: Addr, exec: Addr, amount: int) returns (o: Outcome)
      modifies this
      ensures Result(db, o) == L.ExecFrozen(old(db), addr, exec, amount)
      ensures Lawful(old(db), contracts, issuers, Freeze(addr, exec, amount), db, o)
    {
      hide Lawful;
      Laws(db, contracts, issuers, Freeze(addr, exec, amount));
      if addr == exec {
        return Failed(ErrSendSameToRecv);
      }
      if !CheckAmount(amount) {
        return Failed(ErrAmount);
      }
      var acc := Load(db, Sub(exec, addr));
      if Wrap(acc.balance - amount) < 0 {
        return Failed(ErrNoBalance);
      }
      acc := Account(acc.addr, Wrap(acc.balance - amount), Wrap(acc.frozen + amount));
      db := db[Sub(exec, acc.addr) := acc];
      return Done([(Sub(exec, acc.addr), acc)]);
    }

    method ExecActive(addr: Addr, exec: Addr, amount: int) returns (o: Outcome)
      modifies this
      ensures Result(db, o) == L.ExecActive(old(db), addr, exec, amount)
      ensures Lawful(old(db), contracts, issuers, Activate(addr, exec, amount), db, o)
    {
      hide Lawful;
      Laws(db, contracts, issuers, Activate(addr, exec, amount));
      if addr == exec {
        return Failed(ErrSendSameToRecv);
      }
      if !CheckAmount(amount) {
        return Failed(ErrAmount);
      }
      var acc := Load(db, Sub(exec, addr));
      if Wrap(acc.frozen - amount) < 0 {
        return Failed(ErrNoBalance);
      }
      acc := Account(acc.addr, Wrap(acc.balance + amount), Wrap(acc.frozen - amount));
      db := db[Sub(exec, acc.addr) := acc];
      return Done([(Sub(exec, acc.addr), acc)]);
    }

    method ExecTransfer(from: Addr, to: Addr, exec: Addr, amount: int) returns (o: Outcome)
      modifies this
      ensures Result(db, o) == L.ExecMove(old(db), from, to, exec, amount, false)
      ensures Lawful(old(db), contracts, issuers, Move(from, to, exec, amount, false), db, o)
    {
      hide Lawful;
      Laws(db, contracts, issuers, Move(from, to, exec, amount, false));
      if from == to {
        return Failed(ErrSendSameToRecv);
      }
      if !CheckAmount(amount) {
        return Failed(ErrAmount);
      }
      var accFrom, accTo := Load(db, Sub(exec, from)), Load(db, Sub(exec, to));
      if Wrap(accFrom.balance - amount) < 0 {
        return Failed(ErrNoBalance);
      }
      accFrom := accFrom.(balance := Wrap(accFrom.balance - amount));
      accTo := accTo.(balance := Wrap(accTo.balance + amount));
      db := db[Sub(exec, accFrom.addr) := accFrom];
      db := db[Sub(exec, accTo.addr) := accTo];
      return Done([(Sub(exec, accFrom.addr), accFrom), (Sub(exec, accTo.addr), accTo)]);
    }

    method ExecTransferFrozen(from: Addr, to: Addr, exec: Addr, amount: int) returns (o: Outcome)
      modifies this
      ensures Result(db, o) == L.ExecMove(old(db), from, to, exec, amount, true)
      ensures Lawful(old(db), contracts, issuers, Move(from, to, exec, amount, true), db, o)
    {
      hide Lawful;
      Laws(db, contracts, issuers, Move(from, to, exec, amount, true));
      if from == to {
        return Failed(ErrSendSameToRecv);
      }
      if !CheckAmount(amount) {
        return Failed(ErrAmount);
      }
      var accFrom, accTo := Load(db, Sub(exec, from)), Load(db, Sub(exec, to));
      if Wrap(accFrom.frozen - amount) < 0 {
        return Failed(ErrNoBalance);
      }
      accFrom := accFrom.(frozen := Wrap(accFrom.frozen - amount));
      accTo := accTo.(balance := Wrap(accTo.balance + amount));
      db := db[Sub(exec, accFrom.addr) := accFrom];
      db := db[Sub(exec, accTo.addr) := accTo];
      return Done([(Sub(exec, accFrom.addr), accFrom), (Sub(exec, accTo.addr), accTo)]);
    }

    /** Credit a sub-account's balance or its frozen part; the caller has checked the amount. */
    method Credit(addr: Addr, exec: Addr, balance: int, frozen: int) returns (o: Outcome)
      modifies this
      ensures Result(db, o) == Shift(old(db), exec, addr, balance, frozen)
    {
      var acc := Load(db, Sub(exec, addr));
      acc := Account(acc.addr, Wrap(acc.balance + balance), Wrap(acc.frozen + frozen));
      db := db[Sub(exec, acc.addr) := acc];
      return Done([(Sub(exec, acc.addr), acc)]);
    }

    method ExecDeposit(addr: Addr, exec: Addr, amount: int) returns (o: Outcome)
      modifies this
      ensures Result(db, o) == L.ExecDeposit(old(db), addr, exec, amount)
      ensures if addr == exec then o == Failed(ErrSendSameToRecv) && db == old(db)
              else if !CheckAmount(amount) then o == Failed(ErrAmount) && db == old(db)
              else o.Done?
      ensures old(Valid()) && o.Done? ==> Shifted(old(db), Sub(exec, addr), amount, 0, db)
      ensures old(Valid()) && o.Done? ==>
                (Backed(db) <==> Total(old(db), Inside(exec)) + amount <= Load(old(db), Plain(exec)).balance)
    {
      hide Total, Shifted, Inv, Backed, Wrap;
      if Valid() { ExecDepositExact(db, contracts, addr, exec, amount); }
      if addr == exec {
        return Failed(ErrSendSameToRecv);
      }
      if !CheckAmount(amount) {
        return Failed(ErrAmount);
      }
      o := Credit(addr, exec, amount, 0);
    }

    method ExecWithdraw(exec: Addr, addr: Addr, amount: int) returns (o: Outcome)
      modifies this
      ensures Result(db, o) == L.ExecWithdraw(old(db), exec, addr, amount)
      ensures addr == exec ==> o == Failed(ErrSendSameToRecv)
      ensures addr != exec && !CheckAmount(amount) ==> o == Failed(ErrAmount)
      ensures old(Valid()) && addr != exec && CheckAmount(amount) ==>
                if amount <= Load(old(db), Sub(exec, addr)).balance then o.Done? else o == Failed(ErrNoBalance)
      ensures !o.Done? ==> db == old(db)
      ensures old(Valid()) && o.Done? ==> Shifted(old(db), Sub(exec, addr), -amount, 0, db) && Backed(db)
    {
      hide Total, Shifted, Inv, Backed, Wrap;
      if Valid() { ExecWithdrawExact(db, contracts, exec, addr, amount); }
      if addr == exec {
        return Failed(ErrSendSameToRecv);
      }
      if !CheckAmount(amount) {
        return Failed(ErrAmount);
      }
      if Wrap(Load(db, Sub(exec, addr)).balance - amount) < 0 {
        return Failed(ErrNoBalance);
      }
      o := Credit(addr, exec, -amount, 0);
    }

    method TransferToExec(from: Addr, to: Addr, amount: int) returns (o: Outcome)
      modifies this
      ensures Result(db, o) == L.TransferToExec(old(db), from, to, amount)
      ensures Lawful(old(db), contracts, issuers, ToExec(from, to, amount), db, o)
    {
      hide Lawful, Wrap;
      Laws(db, contracts, issuers, ToExec(from, to, amount));
      o := Transfer(from, to, amount);
      if !o.Done? {
        return o;
      }
      var o2 := ExecDeposit(from, to, amount);
      if !o2.Done? {
        return Panicked;
      }
      return Done(o.kvs + o2.kvs);
    }

    method TransferWithdraw(from: Addr, to: Addr, amount: int) returns (o: Outcome)
      modifies this
      ensures Result(db, o) == L.TransferWithdraw(old(db), from, to, amount)
      ensures Lawful(old(db), contracts, issuers, Withdraw(from, to, amount), db, o)
    {
      hide Lawful, Wrap;
      Laws(db, contracts, issuers, Withdraw(from, to, amount));
      o := CheckTransfer(db, to, amount);
      if !o.Done? {
        return o;
      }
      o := ExecWithdraw(to, from, amount);
      if !o.Done? {
        return o;
      }
      var o2 := Transfer(to, from, amount);
      if !o2.Done? {
        return Panicked;
      }
      return Done(o.kvs + o2.kvs);
    }

    method ExecDepositFrozen(addr: Addr, exec: Addr, amount: int) returns (o: Outcome)
      modifies this
      ensures Result(db, o) == L.ExecDepositFrozen(old(db), issuers, addr, exec, amount)
      ensures Lawful(old(db), contracts, issuers, Issue(addr, exec, amount), db, o)
    {
      hide Lawful, Wrap;
      Laws(db, contracts, issuers, Issue(addr, exec, amount));
      if addr == exec {
        return Failed(ErrSendSameToRecv);
      }
      if exec !in issuers {
        return Failed(ErrNotAllowDeposit);
      }
      o := DepositBalance(exec, amount);
      if !o.Done? {
        return o;
      }
      if !CheckAmount(amount) {
        return Failed(ErrAmount);
      }
      var o2 := Credit(addr, exec, 0, amount);
      return Done(o.kvs + o2.kvs);
    }

    method GenesisInit(addr: Addr, amount: int) returns (o: Outcome)
      modifies this
      ensures Result(db, o) == L.GenesisInit(old(db), addr, amount)
      ensures Lawful(old(db), contracts, issuers, Genesis(addr, amount), db, o)
    {
      hide Lawful;
      Laws(db, contracts, issuers, Genesis(addr, amount));
      var acc := Load(db, Plain(addr));
      var (ok, balance) := SafeAdd(acc.balance, amount);
      if !ok {
        return Failed(ErrAmount);
      }
      acc := acc.(balance := balance);
      db := db[Plain(acc.addr) := acc];
      return Done([(Plain(acc.addr), acc)]);
    }

    method GenesisInitExec(addr: Addr, amount: int, exec: Addr) returns (o: Outcome)
      modifies this
      ensures Result(db, o) == L.GenesisInitExec(old(db), addr, amount, exec)
      ensures Lawful(old(db), contracts, issuers, GenesisExec(addr, amount, exec), db, o)
    {
      hide Lawful, Wrap;
      Laws(db, contracts, issuers, GenesisExec(addr, amount, exec));
      o := GenesisInit(exec, amount);
      if !o.Done? {
        return o;
      }
      var o2 := ExecDeposit(addr, exec, amount);
      if !o2.Done? {
        return Panicked;
      }
      return Done(o.kvs + o2.kvs);
    }
  }
}
