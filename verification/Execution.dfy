/** Executing transactions, transaction groups and a block's transaction list on a state database.
    The rollback, reset and receipt-writing forks are active. */
module Executions {
  import opened Blocks
  import opened StateDbs

  datatype Ty = ExecErr | ExecPack | ExecOk

  datatype Receipt = Receipt(ty: Ty, kvs: seq<KV>, logs: seq<string>)

  /** `env` marks a failure of the node's environment rather than of the transaction. */
  datatype TxError = TxError(env: bool, message: string)

  const ERR_NOT_ALLOW_MEM_SET_KEY := TxError(false, "ErrNotAllowMemSetKey")
  const ERR_NOT_ALLOW_KEY := TxError(false, "ErrNotAllowKey")
  const ERR_TX_GROUP_COUNT := TxError(false, "ErrTxGroupCount")
  const ERR_TX_GROUP_NOT_SUPPORT := TxError(false, "ErrTxGroupNotSupport")
  const MAX_TX_GROUP_SIZE := 20

  datatype Returned = Failed(error: TxError) | Done(receipt: Option<Receipt>)

  /** Everything a driver does with one transaction: the writes it makes, what it returns, whether
      it may write the returned keys, and how its local execution at the same time ends. */
  datatype DriverRun = DriverRun(writes: seq<KV>, returned: Returned, keysAllowed: bool, local: Option<TxError>)

  datatype Fee = Refused(error: TxError) | Free | Charged(key: Key, value: Value, log: string)

  /** A transaction as the executor meets it: its checks, its fee and its driver, which is told
      the transaction's index in the block. */
  datatype TxInput =
    TxInput(groupCount: int, check: Option<TxError>, groupCheck: Option<TxError>, fee: Fee, run: int -> DriverRun)

  function FeeKVs(fee: Fee): (kvs: seq<KV>)
    ensures NoNil(kvs)
  {
    if fee.Charged? then [KV(fee.key, Some(fee.value))] else []
  }

  /** The logs a fee leaves in the receipt. */
  function FeeLogs(fee: Fee): seq<string> {
    if fee.Charged? then [fee.log] else []
  }

  function RunLogs(run: DriverRun): seq<string> {
    if run.returned.Done? && run.returned.receipt.Some? then run.returned.receipt.value.logs else []
  }

  function RunKVs(run: DriverRun): seq<KV> {
    if run.returned.Done? && run.returned.receipt.Some? then run.returned.receipt.value.kvs else []
  }

  /** The transaction takes effect: the driver returned, named every key it wrote, may write
      every key it named, and its local execution succeeded. */
  predicate Accepted(run: DriverRun) {
    run.returned.Done? && Keys(run.writes) <= Keys(RunKVs(run)) && run.keysAllowed && run.local.None?
  }

  /** The first thing that stops a run that is not accepted. */
  function Refusal(run: DriverRun): TxError
    requires !Accepted(run)
  {
    if run.returned.Failed? then run.returned.error
    else if !(Keys(run.writes) <= Keys(RunKVs(run))) then ERR_NOT_ALLOW_MEM_SET_KEY
    else if !run.keysAllowed then ERR_NOT_ALLOW_KEY
    else run.local.value
  }

  function ErrReceipt(e: TxError): Receipt {
    Receipt(ExecErr, [], [e.message])
  }

  /** All the writes of a list of receipts, in order. */
  function AllKVs(rs: seq<Receipt>): seq<KV> {
    if rs == [] then [] else AllKVs(rs[..|rs| - 1]) + rs[|rs| - 1].kvs
  }

  lemma AllPush(rs: seq<Receipt>, r: Receipt)
    ensures AllKVs(rs + [r]) == AllKVs(rs) + r.kvs
  {
    assert (rs + [r])[..|rs|] == rs;
  }

  lemma AllOne(r: Receipt)
    ensures AllKVs([r]) == r.kvs
  {
    AllPush([], r);
    assert [] + [r] == [r] && AllKVs([]) + r.kvs == r.kvs;
  }

  lemma AllNone()
    ensures AllKVs([]) == []
  {
  }

  lemma {:induction false} AllJoin(a: seq<Receipt>, b: seq<Receipt>)
    ensures AllKVs(a + b) == AllKVs(a) + AllKVs(b)
    decreases |b|
  {
    hide AllKVs;
    if b == [] {
      AllNone();
      assert a + b == a;
    } else {
      var n := |b| - 1;
      AllJoin(a, b[..n]);
      AllPush(a + b[..n], b[n]);
      AllPush(b[..n], b[n]);
      assert a + b == a + b[..n] + [b[n]] && b == b[..n] + [b[n]];
    }
  }

  lemma {:induction false} AllEmpty(rs: seq<Receipt>)
    requires forall i :: 0 <= i < |rs| ==> rs[i].kvs == []
    ensures AllKVs(rs) == []
    decreases |rs|
  {
    if rs != [] { AllEmpty(rs[..|rs| - 1]); }
  }

  /** The view moved from `before` to `after` by exactly the writes `kvs`, where these have no nil value. */
  ghost predicate Follows(before: State, after: State, kvs: seq<KV>) {
    NoNil(kvs) ==> after == Put(before, kvs)
  }

  lemma FollowsJoin(s0: State, s1: State, s2: State, a: seq<KV>, b: seq<KV>)
    requires Follows(s0, s1, a) && Follows(s1, s2, b)
    ensures Follows(s0, s2, a + b)
  {
    if NoNil(a + b) {
      assert forall i :: 0 <= i < |a| ==> (a + b)[i] == a[i];
      assert forall i :: 0 <= i < |b| ==> (a + b)[|a| + i] == b[i];
      PutJoin(s0, a, b);
    }
  }

  /** A fee written through, then the fee and the results written in a transaction and committed. */
  lemma FeeThenResults(s: State, fee: seq<KV>, kvs: seq<KV>)
    requires NoNil(fee)
    ensures Follows(s, Put(s, fee) + Put(map[], fee + kvs), fee + kvs)
  {
    if NoNil(fee + kvs) {
      CommitIsOverlay(Put(s, fee), fee + kvs);
      assert Keys(fee) <= Keys(fee + kvs) by {
        assert forall i :: 0 <= i < |fee| ==> (fee + kvs)[i] == fee[i];
      }
      ReceiptDominates(s, fee, fee + kvs);
    }
  }

  /** No key that is there with the fee written ends with a nil write. */
  ghost predicate Covers(before: State, fee: seq<KV>, kvs: seq<KV>) {
    forall k :: k in Put(before, fee) ==> Last(kvs, k) != Some(None)
  }

  /** What a charge and then a committed transaction leave: the fee written through, and all the receipt's
      pairs, the fee among them, in the transaction's cache. */
  ghost function Charge(before: State, fee: seq<KV>, kvs: seq<KV>): State {
    Put(before, fee) + Put(map[], kvs)
  }

  /** With nil values too, the view moves by the receipt exactly if no such key is lost from sight. */
  lemma ChargeExactly(s: State, fee: seq<KV>, kvs: seq<KV>)
    requires Keys(fee) <= Keys(kvs)
    ensures Charge(s, fee, kvs) == Put(s, kvs) <==> Covers(s, fee, kvs)
  {
    CommitIsOverlayExactly(Put(s, fee), kvs);
    ReceiptDominates(s, fee, kvs);
  }

  lemma FeeThenResultsExactly(s: State, fee: seq<KV>, kvs: seq<KV>)
    ensures Charge(s, fee, fee + kvs) == Put(s, fee + kvs) <==> Covers(s, fee, fee + kvs)
  {
    FeeInFront(fee, kvs);
    ChargeExactly(s, fee, fee + kvs);
  }

  lemma FeeInFront(fee: seq<KV>, kvs: seq<KV>)
    ensures Keys(fee) <= Keys(fee + kvs)
  {
    assert forall i :: 0 <= i < |fee| ==> (fee + kvs)[i] == fee[i];
  }

  /** Every key the driver wrote must be in its receipt. */
  method CheckKV(memset: seq<Key>, kvs: seq<KV>) returns (ok: bool)
    ensures ok <==> forall i :: 0 <= i < |memset| ==> memset[i] in Keys(kvs)
  {
    var keys: set<Key> := {};
    for i := 0 to |kvs|
      invariant keys == Keys(kvs[..i])
    {
      keys := keys + {kvs[i].key};
      assert kvs[..i + 1] == kvs[..i] + [kvs[i]];
      KeysPush(kvs[..i], kvs[i]);
    }
    assert kvs[..|kvs|] == kvs;
    for i := 0 to |memset|
      invariant forall j :: 0 <= j < i ==> memset[j] in keys
    {
      if memset[i] !in keys {
        return false;
      }
    }
    return true;
  }

  lemma KeysPush(kvs: seq<KV>, kv: KV)
    ensures Keys(kvs + [kv]) == Keys(kvs) + {kv.key}
  {
    var more := kvs + [kv];
    forall k
      ensures k in Keys(more) <==> k in Keys(kvs) + {kv.key}
    {
      if k in Keys(kvs) { var i :| 0 <= i < |kvs| && kvs[i].key == k; assert more[i].key == k; }
      if k == kv.key { assert more[|kvs|].key == k; }
      if k in Keys(more) { var i :| 0 <= i < |more| && more[i].key == k; }
    }
  }

  /** Run the driver inside the open transaction.  If it is accepted, the transaction's cache
      changes by the new receipt's writes and nothing else. */
  method ExecTxOne(db: StateDB, feelog: Receipt, run: DriverRun) returns (r: Receipt, err: Option<TxError>)
    requires db.intx
    modifies db
    ensures db.intx && db.Base() == old(db.Base())
    ensures err == if Accepted(run) then None else Some(Refusal(run))
    ensures err.Some? ==> r == feelog.(logs := feelog.logs + [err.value.message])
    ensures err.None? ==> r.kvs == feelog.kvs + RunKVs(run) && db.Layer() == Put(old(db.Layer()), r.kvs)
    ensures err.None? ==> r.logs == feelog.logs + RunLogs(run)
    ensures err.None? ==> r.ty == if run.returned.receipt.Some? then run.returned.receipt.value.ty else feelog.ty
    ensures err.None? && feelog.ty == ExecPack ==> r.ty == RunTy(run)
  {
    db.keys := [];
    db.SetAll(run.writes);
    if run.returned.Failed? {
      return feelog.(logs := feelog.logs + [run.returned.error.message]), Some(run.returned.error);
    }
    var ok := CheckKV(db.keys, RunKVs(run));
    KeysCovered(db.keys, run.writes, Keys(RunKVs(run)));
    if !ok {
      return feelog.(logs := feelog.logs + [ERR_NOT_ALLOW_MEM_SET_KEY.message]), Some(ERR_NOT_ALLOW_MEM_SET_KEY);
    }
    if !run.keysAllowed {
      return feelog.(logs := feelog.logs + [ERR_NOT_ALLOW_KEY.message]), Some(ERR_NOT_ALLOW_KEY);
    }
    if run.local.Some? {
      return feelog.(logs := feelog.logs + [run.local.value.message]), run.local;
    }
    r := feelog;
    if run.returned.receipt.Some? {
      var result := run.returned.receipt.value;
      r := Receipt(result.ty, feelog.kvs + result.kvs, feelog.logs + result.logs);
    }
    db.SetAll(r.kvs);
    assert Keys(run.writes) <= Keys(r.kvs) by { KeysAppend(feelog.kvs, RunKVs(run)); }
    ReceiptDominates(old(db.Layer()), run.writes, r.kvs);
    return r, None;
  }

  lemma KeysCovered(keys: seq<Key>, writes: seq<KV>, allowed: set<Key>)
    requires |keys| == |writes| && forall i :: 0 <= i < |keys| ==> keys[i] == writes[i].key
    ensures Keys(writes) <= allowed <==> forall i :: 0 <= i < |keys| ==> keys[i] in allowed
  {
    assert forall i :: 0 <= i < |keys| ==> keys[i] in Keys(writes);
  }

  lemma KeysAppend(a: seq<KV>, b: seq<KV>)
    ensures Keys(b) <= Keys(a + b)
  {
    assert forall i :: 0 <= i < |b| ==> (a + b)[|a| + i] == b[i];
  }

  /** Take the fee outside any transaction, so that it stays even if the transaction fails. */
  method ExecFee(db: StateDB, fee: Fee) returns (feelog: Receipt, err: Option<TxError>)
    requires !db.intx
    modifies db
    ensures !db.intx && db.View() == Put(old(db.View()), FeeKVs(fee)) && db.Base() == db.View()
    ensures err == if fee.Refused? then Some(fee.error) else None
    ensures feelog == Receipt(ExecPack, FeeKVs(fee), FeeLogs(fee))
  {
    feelog := Receipt(ExecPack, [], []);
    assert db.Base() + map[] == db.Base();
    match fee
    case Refused(e) => return feelog, Some(e);
    case Free => return feelog, None;
    case Charged(key, value, log) =>
      db.Set(KV(key, Some(value)));
      assert FeeKVs(fee)[..0] == [];
      return Receipt(ExecPack, [KV(key, Some(value))], [log]), None;
  }

  /** The type a receipt ends with: what the driver returned, or packed. */
  function RunTy(run: DriverRun): Ty {
    if run.returned.Done? && run.returned.receipt.Some? then run.returned.receipt.value.ty else ExecPack
  }

  /** Why a transaction above height 0 gets no receipt: its check, its fee, or its environment. */
  function TxFailure(tx: TxInput, index: int): Option<TxError> {
    if tx.check.Some? then tx.check
    else if tx.fee.Refused? then Some(tx.fee.error)
    else if !Accepted(tx.run(index)) && Refusal(tx.run(index)).env then Some(Refusal(tx.run(index)))
    else None
  }

  /** What the receipt of a single transaction holds. */
  ghost predicate SingleReceipt(height: int, tx: TxInput, index: int, r: Receipt) {
    var run := tx.run(index);
    if height == 0 then run.returned.Done? && run.returned.receipt == Some(r)
    else if Accepted(run) then r == Receipt(RunTy(run), FeeKVs(tx.fee) + RunKVs(run), FeeLogs(tx.fee) + RunLogs(run))
    else r == Receipt(ExecPack, FeeKVs(tx.fee), FeeLogs(tx.fee) + [Refusal(run).message])
  }

  datatype Outcome = Reply(receipt: Receipt) | Fail(error: TxError) | Panic

  /** One transaction.  After genesis the view always moves by exactly the returned receipt:
      the fee and the results if the transaction is accepted, the fee alone if it is not. */
  method ExecTx(db: StateDB, height: int, tx: TxInput, index: int) returns (out: Outcome)
    requires !db.intx
    modifies db
    ensures !db.intx
    ensures out.Reply? ==> SingleReceipt(height, tx, index, out.receipt)
    ensures height != 0 ==> if TxFailure(tx, index).Some? then out == Fail(TxFailure(tx, index).value) else out.Reply?
    ensures height != 0 && out.Fail? && !out.error.env ==> db.View() == old(db.View())
    ensures height != 0 && out.Reply? ==>
              && Follows(old(db.View()), db.View(), out.receipt.kvs)
              && db.View() == Charge(old(db.View()), FeeKVs(tx.fee), out.receipt.kvs)
              && (db.View() == Put(old(db.View()), out.receipt.kvs) <==>
                  Covers(old(db.View()), FeeKVs(tx.fee), out.receipt.kvs))
    ensures height == 0 ==>
              if tx.run(index).returned.Done? && tx.run(index).returned.receipt.Some? then out.Reply? else out.Panic?
    ensures height == 0 ==> forall k :: Lookup(db.View(), k) == Shows(db.store, old(db.View()), tx.run(index).writes, k)
    ensures height == 0 && NoNil(tx.run(index).writes) ==> db.View() == Put(old(db.View()), tx.run(index).writes)
    ensures height == 0 && out.Reply? ==>
              (db.View() == Put(old(db.View()), out.receipt.kvs) <==>
               Agrees(db.store, old(db.View()), tx.run(index).writes, out.receipt.kvs))
  {
    var run := tx.run(index);
    if height == 0 {
      WriteThroughAll(db, run.writes);
      if run.returned.Failed? || run.returned.receipt.None? {
        return Panic;
      }
      AgreesExactly(db.store, old(db.View()), db.View(), run.writes, run.returned.receipt.value.kvs);
      return Reply(run.returned.receipt.value);
    }
    if tx.check.Some? {
      return Fail(tx.check.value);
    }
    var feelog, err := ExecFee(db, tx.fee);
    if err.Some? {
      return Fail(err.value);
    }
    db.Begin();
    feelog, err := ExecTxOne(db, feelog, run);
    FeeThenResults(old(db.View()), FeeKVs(tx.fee), RunKVs(run));
    FeeThenResultsExactly(old(db.View()), FeeKVs(tx.fee), RunKVs(run));
    FeeAlone(old(db.View()), FeeKVs(tx.fee));
    if err.Some? {
      db.Rollback();
      if err.value.env {
        return Fail(err.value);
      }
    } else {
      db.Commit();
    }
    return Reply(feelog);
  }

  lemma FeeAlone(s: State, fee: seq<KV>)
    requires NoNil(fee)
    ensures Covers(s, fee, fee) && Charge(s, fee, fee) == Put(s, fee)
  {
    forall k
      ensures Last(fee, k) != Some(None)
    {
      PutAt(s, fee, k);
    }
    ChargeExactly(s, fee, fee);
  }

  /** Writes outside a transaction go straight to the block cache. */
  method WriteThroughAll(db: StateDB, kvs: seq<KV>)
    requires !db.intx
    modifies db
    ensures !db.intx && forall k :: Lookup(db.View(), k) == Shows(db.store, old(db.View()), kvs, k)
    ensures NoNil(kvs) ==> db.View() == Put(old(db.View()), kvs)
  {
    for i := 0 to |kvs|
      invariant !db.intx && db.cache == Put(old(db.cache), kvs[..i])
    {
      db.Set(kvs[i]);
      assert kvs[..i + 1][..i] == kvs[..i];
    }
    assert kvs[..|kvs|] == kvs;
    assert db.View() == db.store + Put(old(db.cache), kvs) && old(db.View()) == db.store + old(db.cache);
    forall k
      ensures Lookup(db.View(), k) == Shows(db.store, old(db.View()), kvs, k)
      ensures NoNil(kvs) ==> Lookup(db.View(), k) == Lookup(Put(old(db.View()), kvs), k)
    {
      ShownThrough(db.store, old(db.cache), kvs, k);
      PutAt(old(db.View()), kvs, k);
    }
    if NoNil(kvs) { SameLookups(db.View(), Put(old(db.View()), kvs)); }
  }

  /** At genesis a driver's writes need not be in its receipt, so the two may part. */
  lemma GenesisMayDiverge(before: State)
    requires Lookup(before, "k") != Some("v")
    ensures var r := Receipt(ExecOk, [], []);
            var tx := TxInput(0, None, None, Free, _ => DriverRun([KV("k", Some("v"))], Done(Some(r)), true, None));
            SingleReceipt(0, tx, 0, r) && !Agrees(before, before, tx.run(0).writes, r.kvs)
  {
    assert Shows(before, before, [KV("k", Some("v"))], "k") == Some("v") != Ends(before, [], "k");
  }

  // ----- Groups -----

  datatype GroupOutcome = Replies(receipts: seq<Receipt>) | GroupFail(error: TxError)

  ghost predicate AllAccepted(txs: seq<TxInput>, index: int, n: nat)
    requires n <= |txs|
  {
    forall i :: 0 <= i < n ==> Accepted(txs[i].run(index + i))
  }

  /** The first member from `i` on that is not accepted, or the size of the group. */
  ghost function FirstRefused(txs: seq<TxInput>, index: int, i: nat): (n: nat)
    requires i <= |txs|
    ensures i <= n <= |txs|
    ensures forall j :: i <= j < n ==> Accepted(txs[j].run(index + j))
    ensures n < |txs| ==> !Accepted(txs[n].run(index + n))
    decreases |txs| - i
  {
    if i == |txs| || !Accepted(txs[i].run(index + i)) then i else FirstRefused(txs, index, i + 1)
  }

  /** The environment error a group's members end in, if it is the first refusal. */
  ghost function MemberFailure(txs: seq<TxInput>, index: int): Option<TxError> {
    var n := FirstRefused(txs, index, 0);
    if n < |txs| && Refusal(txs[n].run(index + n)).env then Some(Refusal(txs[n].run(index + n))) else None
  }

  /** Why a group gets no receipts: its check, a member that names another size, the fee of its
      first member, or an environment error of the first member that is not accepted. */
  ghost function GroupFailure(txs: seq<TxInput>, index: int): Option<TxError>
    requires 1 <= |txs|
  {
    if txs[0].groupCheck.Some? then txs[0].groupCheck
    else if exists i :: 0 <= i < |txs| && txs[i].groupCount != |txs| then Some(ERR_TX_GROUP_COUNT)
    else if txs[0].fee.Refused? then Some(txs[0].fee.error)
    else MemberFailure(txs, index)
  }

  lemma FirstRefusedIs(txs: seq<TxInput>, index: int, n: nat)
    requires n <= |txs| && (n < |txs| ==> !Accepted(txs[n].run(index + n)))
    requires forall j :: 0 <= j < n ==> Accepted(txs[j].run(index + j))
    ensures FirstRefused(txs, index, 0) == n
  {
    hide Accepted;
  }

  /** The receipt of accepted member `i`: what its driver returned, with the fee in front for the first. */
  function MemberReceipt(txs: seq<TxInput>, index: int, i: nat): Receipt
    requires i < |txs|
  {
    var run := txs[i].run(index + i);
    var fee := if i == 0 then txs[0].fee else Free;
    Receipt(RunTy(run), FeeKVs(fee) + RunKVs(run), FeeLogs(fee) + RunLogs(run))
  }

  /** The receipts of the first `n` members, all accepted, followed by untouched ones. */
  ghost predicate GroupReceipts(txs: seq<TxInput>, index: int, rs: seq<Receipt>, n: nat)
    requires 1 <= n <= |txs|
  {
    && |rs| == |txs|
    && (forall i :: 0 <= i < n ==> rs[i] == MemberReceipt(txs, index, i))
    && (forall i :: n <= i < |rs| ==> rs[i] == Receipt(ExecPack, [], []))
  }

  /** The receipts of a group that was rolled back because of member `n`: packed, only the fee is written,
      and the refused member says why. */
  ghost predicate FeeOnly(txs: seq<TxInput>, index: int, n: nat, rs: seq<Receipt>)
    requires 1 <= |txs|
  {
    && |rs| == |txs| && n < |txs| && !Accepted(txs[n].run(index + n))
    && (forall i :: 0 <= i < |rs| ==> rs[i] == RolledBack(txs, index, n, i))
  }

  function RolledBack(txs: seq<TxInput>, index: int, n: nat, i: nat): Receipt
    requires i < |txs| && n < |txs| && !Accepted(txs[n].run(index + n))
  {
    var fee := if i == 0 then txs[0].fee else Free;
    Receipt(ExecPack, FeeKVs(fee), FeeLogs(fee) + if i == n then [Refusal(txs[n].run(index + n)).message] else [])
  }

  lemma RolledBackAt(txs: seq<TxInput>, index: int, n: nat, rs: seq<Receipt>, i: nat)
    requires 1 <= |txs| && FeeOnly(txs, index, n, rs) && i < |txs|
    ensures n < |txs| && !Accepted(txs[n].run(index + n)) && rs[i] == RolledBack(txs, index, n, i)
  {
    hide Accepted, Refusal;
  }

  lemma FeeOnlyKVs(txs: seq<TxInput>, index: int, n: nat, rs: seq<Receipt>)
    requires 1 <= |txs| && FeeOnly(txs, index, n, rs)
    ensures AllKVs(rs) == FeeKVs(txs[0].fee)
  {
    hide Accepted, Refusal, AllKVs;
    assert rs == [rs[0]] + rs[1..];
    AllJoin([rs[0]], rs[1..]);
    AllEmpty(rs[1..]);
    AllOne(rs[0]);
  }

  /** One more accepted member. */
  lemma ReceiptsPush(txs: seq<TxInput>, index: int, rs: seq<Receipt>, n: nat, r: Receipt)
    requires 1 <= n < |txs| && GroupReceipts(txs, index, rs, n)
    requires r.kvs == rs[n].kvs + RunKVs(txs[n].run(index + n)) && r.ty == RunTy(txs[n].run(index + n))
    requires r.logs == rs[n].logs + RunLogs(txs[n].run(index + n))
    ensures GroupReceipts(txs, index, rs[n := r], n + 1)
  {
    hide RunKVs, RunTy, RunLogs;
    assert rs[n] == Receipt(ExecPack, [], []);
    assert r == MemberReceipt(txs, index, n);
    assert forall i :: 0 <= i < |rs| && i != n ==> rs[n := r][i] == rs[i];
  }

  lemma LayerPush(rs: seq<Receipt>, n: nat, r: Receipt)
    requires n < |rs|
    ensures Put(map[], AllKVs(rs[n := r][..n + 1])) == Put(Put(map[], AllKVs(rs[..n])), r.kvs)
  {
    assert rs[n := r][..n + 1] == rs[..n] + [r];
    AllPush(rs[..n], r);
    PutJoin(map[], AllKVs(rs[..n]), r.kvs);
  }

  /** Members 1, 2, ... after an accepted first member.  `n` members were accepted. */
  method ExecMembers(db: StateDB, txs: seq<TxInput>, index: int, first: Receipt)
    returns (rs: seq<Receipt>, err: Option<TxError>, n: nat)
    requires db.intx && 1 <= |txs| && Accepted(txs[0].run(index))
    requires first == MemberReceipt(txs, index, 0) && db.Layer() == Put(map[], first.kvs)
    modifies db
    ensures db.intx && db.Base() == old(db.Base())
    ensures 1 <= n <= |txs| == |rs| && AllAccepted(txs, index, n)
    ensures err.None? <==> n == |txs|
    ensures err.Some? ==> !Accepted(txs[n].run(index + n)) && err.value == Refusal(txs[n].run(index + n))
    ensures err.None? ==> GroupReceipts(txs, index, rs, n) && db.Layer() == Put(map[], AllKVs(rs))
    ensures err.Some? ==>
              && rs[n] == Receipt(ExecPack, [], [err.value.message])
              && forall i :: n < i < |rs| ==> rs[i] == Receipt(ExecPack, [], [])
  {
    hide AllKVs, Put, RunKVs, FeeKVs, Accepted, Refusal;
    rs := [first] + seq(|txs| - 1, _ => Receipt(ExecPack, [], []));
    n := 1;
    assert rs[..1] == [first];
    AllOne(first);
    while n < |txs|
      invariant 1 <= n <= |txs| && db.intx && db.Base() == old(db.Base())
      invariant AllAccepted(txs, index, n) && GroupReceipts(txs, index, rs, n)
      invariant db.Layer() == Put(map[], AllKVs(rs[..n]))
    {
      var r, e := ExecTxOne(db, rs[n], txs[n].run(index + n));
      ghost var was := rs;
      rs := rs[n := r];
      if e.Some? {
        return rs, e, n;
      }
      ReceiptsPush(txs, index, was, n, r);
      LayerPush(was, n, r);
      n := n + 1;
    }
    assert rs[..n] == rs;
    return rs, None, n;
  }

  /** A group is all or nothing: either every member is accepted and the view moves by all the
      receipts together, or only the fee stays and every receipt says so. */
  method ExecTxGroup(db: StateDB, txs: seq<TxInput>, index: int) returns (out: GroupOutcome)
    requires !db.intx && 1 <= |txs|
    modifies db
    ensures out.Replies? ==> !db.intx && |out.receipts| == |txs|
    ensures out.Replies? ==> forall i :: 0 <= i < |txs| ==> txs[i].groupCount == |txs|
    ensures out.Replies? ==> Follows(old(db.View()), db.View(), AllKVs(out.receipts))
    ensures out.Replies? && AllAccepted(txs, index, |txs|) ==> GroupReceipts(txs, index, out.receipts, |txs|)
    ensures out.Replies? && !AllAccepted(txs, index, |txs|) ==>
              && FeeOnly(txs, index, FirstRefused(txs, index, 0), out.receipts)
              && db.View() == Put(old(db.View()), FeeKVs(txs[0].fee))
    ensures if GroupFailure(txs, index).Some? then out == GroupFail(GroupFailure(txs, index).value) else out.Replies?
    ensures out.GroupFail? && !out.error.env ==> !db.intx && db.View() == old(db.View())
    ensures out.Replies? ==>
              && db.View() == Charge(old(db.View()), FeeKVs(txs[0].fee), AllKVs(out.receipts))
              && (db.View() == Put(old(db.View()), AllKVs(out.receipts)) <==>
                  Covers(old(db.View()), FeeKVs(txs[0].fee), AllKVs(out.receipts)))
  {
    if txs[0].groupCheck.Some? {
      return GroupFail(txs[0].groupCheck.value);
    }
    for i := 0 to |txs|
      invariant forall j :: 0 <= j < i ==> txs[j].groupCount == |txs|
    {
      if txs[i].groupCount != |txs| {
        return GroupFail(ERR_TX_GROUP_COUNT);
      }
    }
    var feelog, err := ExecFee(db, txs[0].fee);
    if err.Some? {
      return GroupFail(err.value);
    }
    var rollbackLog := feelog;
    db.Begin();
    out := RunGroup(db, txs, index, feelog, rollbackLog);
    if out.Replies? && AllAccepted(txs, index, |txs|) {
      GroupFollows(old(db.View()), txs, index, out.receipts);
    } else if out.Replies? {
      FeeOnlyKVs(txs, index, FirstRefused(txs, index, 0), out.receipts);
      FeeAlone(old(db.View()), FeeKVs(txs[0].fee));
    }
  }

  /** The part of a group's execution between beginning and ending its transaction. */
  method RunGroup(db: StateDB, txs: seq<TxInput>, index: int, feelog: Receipt, rollbackLog: Receipt)
    returns (out: GroupOutcome)
    requires db.intx && 1 <= |txs| && db.Layer() == map[]
    requires feelog == rollbackLog == Receipt(ExecPack, FeeKVs(txs[0].fee), FeeLogs(txs[0].fee))
    modifies db
    ensures if MemberFailure(txs, index).Some? then out == GroupFail(MemberFailure(txs, index).value) else out.Replies?
    ensures out.Replies? ==> !db.intx && |out.receipts| == |txs|
    ensures out.Replies? && AllAccepted(txs, index, |txs|) ==>
              && GroupReceipts(txs, index, out.receipts, |txs|)
              && db.View() == old(db.Base()) + Put(map[], AllKVs(out.receipts))
    ensures out.Replies? && !AllAccepted(txs, index, |txs|) ==>
              FeeOnly(txs, index, FirstRefused(txs, index, 0), out.receipts) && db.View() == old(db.Base())
  {
    hide AllKVs, Put, RunKVs, Accepted, Refusal, FirstRefused;
    assert txs[0].run(index + 0) == txs[0].run(index);
    var first, err := ExecTxOne(db, feelog, txs[0].run(index));
    if err.Some? {
      assert !Accepted(txs[0].run(index + 0));
      FirstRefusedIs(txs, index, 0);
      if err.value.env {
        return GroupFail(err.value);
      }
      db.Rollback();
      return Replies([first] + seq(|txs| - 1, _ => Receipt(ExecPack, [], [])));
    }
    var rs, e, n := ExecMembers(db, txs, index, first);
    FirstRefusedIs(txs, index, n);
    if e.Some? {
      if e.value.env {
        return GroupFail(e.value);
      }
      for k := 1 to n
        invariant |rs| == |txs| && rs[n] == Receipt(ExecPack, [], [e.value.message])
        invariant forall i :: 1 <= i < k || n < i < |rs| ==> rs[i] == Receipt(ExecPack, [], [])
        invariant db.intx && db.Base() == old(db.Base())
      {
        rs := rs[k := Receipt(ExecPack, [], [])];
      }
      rs := rs[0 := rollbackLog];
      db.Rollback();
      return Replies(rs);
    }
    db.Commit();
    return Replies(rs);
  }

  /** The writes of an accepted group start with the fee, so they follow the view before it. */
  lemma GroupFollows(s: State, txs: seq<TxInput>, index: int, rs: seq<Receipt>)
    requires 1 <= |txs| && GroupReceipts(txs, index, rs, |txs|)
    ensures Follows(s, Put(s, FeeKVs(txs[0].fee)) + Put(map[], AllKVs(rs)), AllKVs(rs))
    ensures Put(s, FeeKVs(txs[0].fee)) + Put(map[], AllKVs(rs)) == Put(s, AllKVs(rs)) <==>
            Covers(s, FeeKVs(txs[0].fee), AllKVs(rs))
  {
    hide Put, Covers, Follows, AllKVs;
    var fee := FeeKVs(txs[0].fee);
    var rest := RunKVs(txs[0].run(index)) + AllKVs(rs[1..]);
    assert rs == [rs[0]] + rs[1..];
    AllJoin([rs[0]], rs[1..]);
    AllOne(rs[0]);
    assert AllKVs(rs) == fee + rest;
    FeeThenResults(s, fee, rest);
    FeeThenResultsExactly(s, fee, rest);
  }

  // ----- A block's list -----

  datatype ListReply = EnvError(error: TxError) | ExecPanic | Receipts(receipts: seq<Receipt>)

  function Count(kept: seq<bool>): nat {
    if kept == [] then 0 else Count(kept[..|kept| - 1]) + if kept[|kept| - 1] then 1 else 0
  }

  lemma {:induction false} CountJoin(a: seq<bool>, b: seq<bool>)
    ensures Count(a + b) == Count(a) + Count(b)
    decreases |b|
  {
    if b == [] {
      assert a + b == a;
    } else {
      var n := |b| - 1;
      CountJoin(a, b[..n]);
      assert (a + b)[..|a + b| - 1] == a + b[..n];
    }
  }

  lemma {:induction false} CountAll(n: nat, kept: bool)
    ensures Count(seq(n, _ => kept)) == if kept then n else 0
  {
    if n != 0 {
      CountAll(n - 1, kept);
      assert seq(n, _ => kept)[..n - 1] == seq(n - 1, _ => kept);
    }
  }

  lemma CountUpTo(kept: seq<bool>, n: nat, keep: bool, j: nat)
    requires j <= |kept| + n
    ensures Count((kept + seq(n, _ => keep))[..j])
            == if j <= |kept| then Count(kept[..j]) else Count(kept) + if keep then j - |kept| else 0
  {
    var kept' := kept + seq(n, _ => keep);
    if j <= |kept| {
      assert kept'[..j] == kept[..j];
    } else {
      assert kept'[..j] == kept + seq(j - |kept|, _ => keep);
      CountJoin(kept, seq(j - |kept|, _ => keep));
      CountAll(j - |kept|, keep);
    }
  }

  lemma {:induction false} RejectedKVs(n: nat, e: TxError)
    ensures AllKVs(seq(n, _ => ErrReceipt(e))) == []
  {
    AllEmpty(seq(n, _ => ErrReceipt(e)));
  }

  /** A group count that is neither that of a single transaction nor that of a group. */
  predicate Malformed(tx: TxInput) {
    tx.groupCount < 0 || tx.groupCount == 1 || tx.groupCount > MAX_TX_GROUP_SIZE
  }

  /** Position `s` starts a group that is executed as one: groups are allowed and it fits the list. */
  predicate StartsGroup(txs: seq<TxInput>, groups: bool, s: nat)
    requires s < |txs|
  {
    !Malformed(txs[s]) && txs[s].groupCount != 0 && groups && s + txs[s].groupCount <= |txs|
  }

  /** How many transactions are handled together at `s`. */
  function Length(txs: seq<TxInput>, groups: bool, s: nat): (n: nat)
    requires s < |txs|
    ensures 1 <= n <= |txs| - s
  {
    if StartsGroup(txs, groups, s) then txs[s].groupCount else 1
  }

  ghost function Members(txs: seq<TxInput>, groups: bool, s: nat): (group: seq<TxInput>)
    requires s < |txs|
    ensures 1 <= |group|
  {
    txs[s..s + Length(txs, groups, s)]
  }

  lemma MemberAt(txs: seq<TxInput>, groups: bool, s: nat, k: nat)
    requires s < |txs| && k < Length(txs, groups, s)
    ensures k < |Members(txs, groups, s)| && Members(txs, groups, s)[k] == txs[s + k]
  {
  }

  /** Why the transactions at `s` are rejected or the list ends there, if they are not executed. */
  ghost function Failure(txs: seq<TxInput>, height: int, groups: bool, s: nat, index: int): Option<TxError>
    requires s < |txs|
  {
    if Malformed(txs[s]) then Some(ERR_TX_GROUP_COUNT)
    else if txs[s].groupCount == 0 then (if height == 0 then None else TxFailure(txs[s], index))
    else if !groups then Some(ERR_TX_GROUP_NOT_SUPPORT)
    else if !StartsGroup(txs, groups, s) then Some(ERR_TX_GROUP_COUNT)
    else GroupFailure(Members(txs, groups, s), index)
  }

  /** How the list ends at `s`: with an environment error, or with the panic of a genesis transaction. */
  ghost function Stops(txs: seq<TxInput>, height: int, groups: bool, s: nat, index: int): (stop: Option<ListReply>)
    requires s < |txs|
    ensures stop.Some? ==> !stop.value.Receipts?
  {
    if txs[s].groupCount == 0 && height == 0 then
      (if txs[s].run(index).returned.Done? && txs[s].run(index).returned.receipt.Some? then None else Some(ExecPanic))
    else
      var f := Failure(txs, height, groups, s, index);
      if f.Some? && f.value.env then Some(EnvError(f.value)) else None
  }

  /** The receipts of an executed group: all members' results, or only the fee. */
  ghost predicate GroupContents(group: seq<TxInput>, index: int, rs: seq<Receipt>)
    requires 1 <= |group|
  {
    if AllAccepted(group, index, |group|) then GroupReceipts(group, index, rs, |group|)
    else FeeOnly(group, index, FirstRefused(group, index, 0), rs)
  }

  /** What handling the transactions at `s` gives when the first of them has `index`. */
  ghost predicate Handled(txs: seq<TxInput>, height: int, groups: bool, s: nat, index: int, rs: seq<Receipt>,
                          keep: bool)
    requires s < |txs|
  {
    var f := Failure(txs, height, groups, s, index);
    && |rs| == Length(txs, groups, s)
    && Stops(txs, height, groups, s, index).None?
    && keep == f.None?
    && (!keep ==> forall j :: 0 <= j < |rs| ==> rs[j] == Receipt(ExecErr, [], [f.value.message]))
    && (keep ==> if txs[s].groupCount == 0 then SingleReceipt(height, txs[s], index, rs[0])
                 else StartsGroup(txs, groups, s) && GroupContents(Members(txs, groups, s), index, rs))
  }

  /** The receipts so far, piece by piece: `starts[j]` is where the piece of `j` begins and
      `kept[j]` whether it was executed; the pieces follow each other without a gap, and each was
      handled with the number of executed transactions before it as index. */
  ghost predicate Aligned(txs: seq<TxInput>, height: int, groups: bool, rs: seq<Receipt>, kept: seq<bool>,
                          starts: seq<nat>) {
    && |rs| == |kept| == |starts| <= |txs|
    && (forall j :: 0 <= j < |rs| ==> PieceAt(txs, height, groups, rs, kept, starts, j))
  }

  ghost predicate PieceAt(txs: seq<TxInput>, height: int, groups: bool, rs: seq<Receipt>, kept: seq<bool>,
                          starts: seq<nat>, j: nat)
    requires j < |rs| == |kept| == |starts| <= |txs|
  {
    var s := starts[j];
    && s <= j < s + Length(txs, groups, s) <= |rs|
    && (forall k :: s <= k < s + Length(txs, groups, s) ==> starts[k] == s && kept[k] == kept[s])
    && Handled(txs, height, groups, s, Count(kept[..s]), rs[s..s + Length(txs, groups, s)], kept[s])
  }

  lemma SliceOfFirst<T>(a: seq<T>, b: seq<T>, i: nat, j: nat)
    requires i <= j <= |a|
    ensures (a + b)[i..j] == a[i..j]
  {
  }

  /** One more piece. */
  lemma AlignedPush(txs: seq<TxInput>, height: int, groups: bool, rs: seq<Receipt>, kept: seq<bool>, starts: seq<nat>,
                    more: seq<Receipt>, keep: bool)
    requires Aligned(txs, height, groups, rs, kept, starts) && |rs| < |txs|
    requires Handled(txs, height, groups, |rs|, Count(kept), more, keep)
    ensures Aligned(txs, height, groups, rs + more, kept + seq(|more|, _ => keep), starts + seq(|more|, _ => |rs|))
    ensures Count(kept + seq(|more|, _ => keep)) == Count(kept) + if keep then |more| else 0
  {
    hide Handled, Count, Length;
    var rs', kept', starts' := rs + more, kept + seq(|more|, _ => keep), starts + seq(|more|, _ => |rs|);
    assert |more| == Length(txs, groups, |rs|) by { HandledLength(txs, height, groups, |rs|, Count(kept), more, keep); }
    forall j | 0 <= j < |rs'|
      ensures PieceAt(txs, height, groups, rs', kept', starts', j)
    {
      if j < |rs| {
        assert PieceAt(txs, height, groups, rs, kept, starts, j);
        var s := starts[j];
        SliceOfFirst(kept, seq(|more|, _ => keep), 0, s);
        SliceOfFirst(rs, more, s, s + Length(txs, groups, s));
      } else {
        assert kept'[..|rs|] == kept && rs'[|rs|..|rs'|] == more;
      }
    }
    CountUpTo(kept, |more|, keep, |kept'|);
    assert kept'[..|kept'|] == kept';
    assert kept[..|kept|] == kept;
  }

  lemma HandledLength(txs: seq<TxInput>, height: int, groups: bool, s: nat, index: int, rs: seq<Receipt>, keep: bool)
    requires s < |txs| && Handled(txs, height, groups, s, index, rs, keep)
    ensures |rs| == Length(txs, groups, s)
  {
  }

  /** How handling the transactions at `s` moves the view: not at all if they are rejected, by the driver's
      writes for a genesis transaction, otherwise by the fee and the receipts. */
  ghost predicate Moves(txs: seq<TxInput>, height: int, s: nat, index: int, store: State, before: State, after: State,
                        rs: seq<Receipt>, keep: bool)
    requires s < |txs|
  {
    if !keep then after == before
    else if height == 0 && txs[s].groupCount == 0 then
      forall k :: Lookup(after, k) == Shows(store, before, txs[s].run(index).writes, k)
    else after == Charge(before, FeeKVs(txs[s].fee), AllKVs(rs))
  }

  /** The condition under which that is the receipts written over what was there. */
  ghost predicate Clean(txs: seq<TxInput>, height: int, s: nat, index: int, store: State, before: State,
                        rs: seq<Receipt>, keep: bool)
    requires s < |txs|
  {
    keep ==>
      if height == 0 && txs[s].groupCount == 0 then Agrees(store, before, txs[s].run(index).writes, AllKVs(rs))
      else Covers(before, FeeKVs(txs[s].fee), AllKVs(rs))
  }

  /** The writes of handled transactions start with the fee, if they are not rejected. */
  lemma HandledFee(txs: seq<TxInput>, height: int, groups: bool, s: nat, index: int, rs: seq<Receipt>, keep: bool)
    requires s < |txs| && Handled(txs, height, groups, s, index, rs, keep)
    ensures !keep ==> AllKVs(rs) == []
    ensures keep && !(height == 0 && txs[s].groupCount == 0) ==> Keys(FeeKVs(txs[s].fee)) <= Keys(AllKVs(rs))
  {
    hide RunKVs, FeeKVs, RunLogs, FeeLogs, Accepted, Refusal, Failure, Stops, GroupContents, AllKVs;
    if !keep {
      AllEmpty(rs);
    } else if height != 0 || txs[s].groupCount != 0 {
      if txs[s].groupCount != 0 { FirstHasFee(Members(txs, groups, s), index, rs); }
      var fee, own := FeeKVs(txs[s].fee), rs[0].kvs[|FeeKVs(txs[s].fee)|..];
      assert rs[0].kvs == fee + own;
      FeeCovered(fee, own, rs);
    }
  }

  lemma FirstHasFee(group: seq<TxInput>, index: int, rs: seq<Receipt>)
    requires 1 <= |group| && GroupContents(group, index, rs)
    ensures |rs| == |group| && FeeKVs(group[0].fee) <= rs[0].kvs
  {
    hide RunKVs, FeeKVs, RunLogs, FeeLogs, Accepted, Refusal, FirstRefused;
  }

  lemma FeeCovered(fee: seq<KV>, own: seq<KV>, rs: seq<Receipt>)
    requires rs != [] && rs[0].kvs == fee + own
    ensures Keys(fee) <= Keys(AllKVs(rs))
  {
    hide AllKVs;
    var rest := rs[1..];
    assert rs == [rs[0]] + rest;
    AllJoin([rs[0]], rest);
    AllOne(rs[0]);
    assert AllKVs(rs) == fee + (own + AllKVs(rest));
    FeeInFront(fee, own + AllKVs(rest));
  }

  lemma MovesExactly(txs: seq<TxInput>, height: int, groups: bool, s: nat, index: int, store: State, before: State,
                     after: State, rs: seq<Receipt>, keep: bool)
    requires s < |txs| && Handled(txs, height, groups, s, index, rs, keep)
    requires Moves(txs, height, s, index, store, before, after, rs, keep)
    ensures after == Put(before, AllKVs(rs)) <==> Clean(txs, height, s, index, store, before, rs, keep)
  {
    hide Handled, Charge, Covers, Agrees, Shows, FeeKVs, AllKVs;
    HandledFee(txs, height, groups, s, index, rs, keep);
    if keep {
      if height == 0 && txs[s].groupCount == 0 {
        AgreesExactly(store, before, after, txs[s].run(index).writes, AllKVs(rs));
      } else {
        ChargeExactly(before, FeeKVs(txs[s].fee), AllKVs(rs));
      }
    }
  }

  /** Handle the transaction at `i`, or the whole group that starts there. */
  method ExecNext(db: StateDB, height: int, groups: bool, txs: seq<TxInput>, i: nat, index: int)
    returns (stop: Option<ListReply>, more: seq<Receipt>, keep: bool)
    requires !db.intx && i < |txs|
    modifies db
    ensures stop == Stops(txs, height, groups, i, index)
    ensures stop.None? ==> !db.intx && Handled(txs, height, groups, i, index, more, keep)
    ensures stop.None? ==> Moves(txs, height, i, index, db.store, old(db.View()), db.View(), more, keep)
    ensures stop.None? && height != 0 ==> Follows(old(db.View()), db.View(), AllKVs(more))
  {
    hide AllKVs, Put, Accepted, Refusal, RunKVs, FeeKVs, TxFailure, GroupFailure, RunTy, Charge, Covers, Agrees, Shows;
    var tx := txs[i];
    stop, keep := None, false;
    if tx.groupCount < 0 || tx.groupCount == 1 || tx.groupCount > MAX_TX_GROUP_SIZE {
      more := Reject(db, 1, ERR_TX_GROUP_COUNT);
    } else if tx.groupCount == 0 {
      var out := ExecTx(db, height, tx, index);
      match out
      case Panic => stop, more := Some(ExecPanic), [];
      case Fail(e) =>
        if e.env {
          stop, more := Some(EnvError(e)), [];
        } else {
          more := Reject(db, 1, e);
        }
      case Reply(r) =>
        more, keep := [r], true;
        AllOne(r);
    } else if !groups {
      more := Reject(db, 1, ERR_TX_GROUP_NOT_SUPPORT);
    } else if i + tx.groupCount > |txs| {
      more := Reject(db, 1, ERR_TX_GROUP_COUNT);
    } else {
      var group := txs[i..i + tx.groupCount];
      var out := ExecTxGroup(db, group, index);
      match out
      case GroupFail(e) =>
        if e.env {
          stop, more := Some(EnvError(e)), [];
        } else {
          more := Reject(db, tx.groupCount, e);
        }
      case Replies(rs) => more, keep := rs, true;
    }
  }

  method Reject(db: StateDB, n: nat, e: TxError) returns (more: seq<Receipt>)
    ensures more == seq(n, _ => ErrReceipt(e)) && Follows(db.View(), db.View(), AllKVs(more))
  {
    more := seq(n, _ => ErrReceipt(e));
    RejectedKVs(n, e);
  }

  /** The views at the boundaries of the pieces: `views[j]` is what the piece of `j` began with, and each
      piece moved the view as `Moves` says. */
  ghost predicate Viewed(txs: seq<TxInput>, height: int, groups: bool, store: State, rs: seq<Receipt>, kept: seq<bool>,
                         starts: seq<nat>, views: seq<State>) {
    && |rs| == |kept| == |starts| <= |txs| && |views| == |rs| + 1
    && (forall j :: 0 <= j < |rs| ==> MovesAt(txs, height, groups, store, rs, kept, starts, views, j))
  }

  ghost predicate MovesAt(txs: seq<TxInput>, height: int, groups: bool, store: State, rs: seq<Receipt>, kept: seq<bool>,
                          starts: seq<nat>, views: seq<State>, j: nat)
    requires j < |rs| == |kept| == |starts| <= |txs| && |views| == |rs| + 1
  {
    var s := starts[j];
    && s <= j < s + Length(txs, groups, s) <= |rs| && views[j] == views[s]
    && Moves(txs, height, s, Count(kept[..s]), store, views[s], views[s + Length(txs, groups, s)],
             rs[s..s + Length(txs, groups, s)], kept[s])
  }

  ghost predicate CleanAt(txs: seq<TxInput>, height: int, groups: bool, store: State, rs: seq<Receipt>, kept: seq<bool>,
                          starts: seq<nat>, views: seq<State>, j: nat)
    requires j < |rs| == |kept| == |starts| <= |txs| && |views| == |rs| + 1
  {
    var s := starts[j];
    && s <= j < s + Length(txs, groups, s) <= |rs|
    && Clean(txs, height, s, Count(kept[..s]), store, views[s], rs[s..s + Length(txs, groups, s)], kept[s])
  }

  ghost predicate AllClean(txs: seq<TxInput>, height: int, groups: bool, store: State, rs: seq<Receipt>,
                           kept: seq<bool>,
                           starts: seq<nat>, views: seq<State>) {
    && |rs| == |kept| == |starts| <= |txs| && |views| == |rs| + 1
    && (forall j :: 0 <= j < |rs| ==> CleanAt(txs, height, groups, store, rs, kept, starts, views, j))
  }

  /** A piece that was there stays as it was when more receipts follow. */
  lemma PieceStays(txs: seq<TxInput>, height: int, groups: bool, store: State, rs: seq<Receipt>, kept: seq<bool>,
                   starts: seq<nat>, views: seq<State>, rs': seq<Receipt>, kept': seq<bool>, starts': seq<nat>,
                   views': seq<State>, j: nat)
    requires j < |rs| == |kept| == |starts| && |views| == |rs| + 1 && |rs'| == |kept'| == |starts'| <= |txs|
    requires |views'| == |rs'| + 1 && rs <= rs' && kept <= kept' && starts <= starts' && views <= views'
    requires MovesAt(txs, height, groups, store, rs, kept, starts, views, j)
    ensures MovesAt(txs, height, groups, store, rs', kept', starts', views', j)
    ensures CleanAt(txs, height, groups, store, rs', kept', starts', views', j) ==>
              CleanAt(txs, height, groups, store, rs, kept, starts, views, j)
  {
    hide Moves, Clean, Count;
    var s := starts[j];
    var n := s + Length(txs, groups, s);
    assert kept'[..s] == kept[..s] && rs'[s..n] == rs[s..n];
    assert views'[j] == views[j] && views'[s] == views[s] && views'[n] == views[n];
    assert starts'[j] == s && kept'[s] == kept[s];
  }

  /** The next piece. */
  lemma PieceNext(txs: seq<TxInput>, height: int, groups: bool, store: State, rs: seq<Receipt>, kept: seq<bool>,
                  starts: seq<nat>, views: seq<State>, n: nat, before: State, after: State, more: seq<Receipt>,
                  keep: bool, j: nat)
    requires |rs| == |kept| == |starts| <= |txs| && |views| == |rs| + 1
    requires n < |rs| == n + |more| && |more| == Length(txs, groups, n) && rs[n..] == more && n <= j < |rs|
    requires forall k :: n <= k < |rs| ==> starts[k] == n && kept[k] == keep && views[k] == before
    requires views[|rs|] == after
    requires Moves(txs, height, n, Count(kept[..n]), store, before, after, more, keep)
    ensures MovesAt(txs, height, groups, store, rs, kept, starts, views, j)
    ensures CleanAt(txs, height, groups, store, rs, kept, starts, views, j) <==>
            Clean(txs, height, n, Count(kept[..n]), store, before, more, keep)
  {
    hide Moves, Clean, Count;
    assert rs[n..|rs|] == more;
  }

  /** One more piece. */
  lemma ViewedPush(txs: seq<TxInput>, height: int, groups: bool, store: State, rs: seq<Receipt>, kept: seq<bool>,
                   starts: seq<nat>, views: seq<State>, more: seq<Receipt>, keep: bool, after: State)
    requires Viewed(txs, height, groups, store, rs, kept, starts, views) && |rs| < |txs|
    requires |more| == Length(txs, groups, |rs|)
    requires Moves(txs, height, |rs|, Count(kept), store, views[|rs|], after, more, keep)
    ensures var rs', kept', starts' := rs + more, kept + seq(|more|, _ => keep), starts + seq(|more|, _ => |rs|);
            var views' := views + seq(|more| - 1, _ => views[|rs|]) + [after];
            && Viewed(txs, height, groups, store, rs', kept', starts', views')
            && (AllClean(txs, height, groups, store, rs', kept', starts', views') ==>
                  && AllClean(txs, height, groups, store, rs, kept, starts, views)
                  && Clean(txs, height, |rs|, Count(kept), store, views[|rs|], more, keep))
  {
    hide Moves, Clean, Count, MovesAt, CleanAt;
    var rs', kept', starts' := rs + more, kept + seq(|more|, _ => keep), starts + seq(|more|, _ => |rs|);
    var views' := views + seq(|more| - 1, _ => views[|rs|]) + [after];
    assert kept'[..|rs|] == kept && rs'[|rs|..] == more;
    forall j | 0 <= j < |rs'|
      ensures MovesAt(txs, height, groups, store, rs', kept', starts', views', j)
      ensures j < |rs| && CleanAt(txs, height, groups, store, rs', kept', starts', views', j) ==>
                CleanAt(txs, height, groups, store, rs, kept, starts, views, j)
      ensures j == |rs| ==> (CleanAt(txs, height, groups, store, rs', kept', starts', views', j) <==>
                             Clean(txs, height, |rs|, Count(kept), store, views[|rs|], more, keep))
    {
      if j < |rs| {
        PieceStays(txs, height, groups, store, rs, kept, starts, views, rs', kept', starts', views', j);
      } else {
        PieceNext(txs, height, groups, store, rs', kept', starts', views', |rs|, views[|rs|], after, more, keep, j);
      }
    }
    if AllClean(txs, height, groups, store, rs', kept', starts', views') {
      assert CleanAt(txs, height, groups, store, rs', kept', starts', views', |rs|);
    }
  }

  /** A reply has exactly one receipt for each transaction, in order, each piece handled with the
      number of executed transactions before it as index, and the view moved by the receipts'
      writes and nothing else; any other reply is how the list stops after such a beginning. */
  method ProcExecTxList(db: StateDB, height: int, groups: bool, txs: seq<TxInput>)
    returns (reply: ListReply, ghost rs: seq<Receipt>, ghost kept: seq<bool>, ghost starts: seq<nat>,
             ghost views: seq<State>)
    requires !db.intx
    modifies db
    ensures Aligned(txs, height, groups, rs, kept, starts)
    ensures if |rs| == |txs| then reply == Receipts(rs)
            else Stops(txs, height, groups, |rs|, Count(kept)) == Some(reply)
    ensures Viewed(txs, height, groups, db.store, rs, kept, starts, views)
    ensures views[0] == old(db.View()) && (reply.Receipts? ==> views[|rs|] == db.View())
    ensures AllClean(txs, height, groups, db.store, rs, kept, starts, views) ==>
              views[|rs|] == Put(old(db.View()), AllKVs(rs))
    ensures reply.Receipts? && height != 0 ==> Follows(old(db.View()), db.View(), AllKVs(rs))
  {
    hide AllKVs, Put, Handled, Aligned, Follows, Stops, Count, Viewed, AllClean, Moves, Clean;
    var receipts, i, index := [], 0, 0;
    rs, kept, starts, views := [], [], [], [db.View()];
    NothingYet(txs, height, groups, db.View());
    NothingViewed(txs, height, groups, db.store, db.View());
    while i < |txs|
      invariant i <= |txs| && |rs| == i && rs == receipts && Aligned(txs, height, groups, rs, kept, starts)
      invariant !db.intx && index == Count(kept)
      invariant height != 0 ==> Follows(old(db.View()), db.View(), AllKVs(rs))
      invariant Viewed(txs, height, groups, db.store, rs, kept, starts, views)
      invariant |views| == i + 1 && views[0] == old(db.View()) && views[i] == db.View()
      invariant AllClean(txs, height, groups, db.store, rs, kept, starts, views) ==>
                  db.View() == Put(old(db.View()), AllKVs(rs))
    {
      ghost var was := db.View();
      var stop, more, keep := ExecNext(db, height, groups, txs, i, index);
      if stop.Some? {
        return stop.value, rs, kept, starts, views;
      }
      AlignedPush(txs, height, groups, rs, kept, starts, more, keep);
      HandledLength(txs, height, groups, i, index, more, keep);
      if height != 0 { FollowsJoin(old(db.View()), was, db.View(), AllKVs(rs), AllKVs(more)); }
      AllJoin(rs, more);
      PutJoin(old(db.View()), AllKVs(rs), AllKVs(more));
      MovesExactly(txs, height, groups, i, index, db.store, was, db.View(), more, keep);
      ViewedPush(txs, height, groups, db.store, rs, kept, starts, views, more, keep, db.View());
      views := views + seq(|more| - 1, _ => was) + [db.View()];
      rs, kept, starts := rs + more, kept + seq(|more|, _ => keep), starts + seq(|more|, _ => i);
      receipts, i, index := receipts + more, i + |more|, index + if keep then |more| else 0;
    }
    return Receipts(receipts), rs, kept, starts, views;
  }

  lemma NothingYet(txs: seq<TxInput>, height: int, groups: bool, s: State)
    ensures Aligned(txs, height, groups, [], [], []) && Follows(s, s, AllKVs([])) && Count([]) == 0
  {
  }

  lemma NothingViewed(txs: seq<TxInput>, height: int, groups: bool, store: State, s: State)
    ensures Viewed(txs, height, groups, store, [], [], [], [s]) && Put(s, AllKVs([])) == s
  {
  }

  function NonErrors(rs: seq<Receipt>): nat {
    if rs == [] then 0 else NonErrors(rs[..|rs| - 1]) + if rs[|rs| - 1].ty != ExecErr then 1 else 0
  }

  /** Inside an executed piece the index goes up by one for each transaction. */
  lemma IndexInPiece(txs: seq<TxInput>, height: int, groups: bool, rs: seq<Receipt>, kept: seq<bool>, starts: seq<nat>,
                     j: nat)
    requires Aligned(txs, height, groups, rs, kept, starts) && j < |rs| && kept[j]
    ensures starts[j] <= j && Count(kept[..j]) == Count(kept[..starts[j]]) + j - starts[j]
  {
    hide Handled, Count;
    assert PieceAt(txs, height, groups, rs, kept, starts, j);
    var s := starts[j];
    assert kept[..j] == kept[..s] + seq(j - s, _ => true);
    CountJoin(kept[..s], seq(j - s, _ => true));
    CountAll(j - s, true);
  }

  /** The transaction's results count: it was accepted, together with the whole group it is in. */
  ghost predicate TakesEffect(txs: seq<TxInput>, height: int, groups: bool, kept: seq<bool>, starts: seq<nat>, j: nat)
    requires j < |kept| == |starts| <= |txs| && starts[j] <= j
  {
    if txs[starts[j]].groupCount == 0 then height == 0 || Accepted(txs[j].run(Count(kept[..j])))
    else var group := Members(txs, groups, starts[j]); AllAccepted(group, Count(kept[..starts[j]]), |group|)
  }

  /** What a transaction without effect logs besides the fee: why it was refused, unless it was an earlier
      member that ended its group. */
  ghost function Reason(txs: seq<TxInput>, groups: bool, kept: seq<bool>, starts: seq<nat>, j: nat): seq<string>
    requires j < |kept| == |starts| <= |txs| && starts[j] <= j
  {
    var s, run := starts[j], txs[j].run(Count(kept[..j]));
    if Accepted(run) then []
    else if txs[s].groupCount == 0 || FirstRefused(Members(txs, groups, s), Count(kept[..s]), 0) == j - s then
      [Refusal(run).message]
    else []
  }

  /** Every executed transaction's driver got the number of executed transactions before it as
      index, and its receipt holds what that driver returned, with the fee of a single transaction
      or of a group's first member in front; without effect only the fee stays, with the reason. */
  lemma ReceiptHolds(txs: seq<TxInput>, height: int, groups: bool, rs: seq<Receipt>, kept: seq<bool>, starts: seq<nat>,
                     j: nat)
    requires Aligned(txs, height, groups, rs, kept, starts) && j < |rs| && kept[j]
    ensures starts[j] <= j
    ensures var run := txs[j].run(Count(kept[..j]));
            if height == 0 && txs[starts[j]].groupCount == 0 then
              run.returned.Done? && run.returned.receipt == Some(rs[j])
            else
              var fee := if j == starts[j] then txs[j].fee else Free;
              if TakesEffect(txs, height, groups, kept, starts, j) then
                rs[j] == Receipt(RunTy(run), FeeKVs(fee) + RunKVs(run), FeeLogs(fee) + RunLogs(run))
              else rs[j] == Receipt(ExecPack, FeeKVs(fee), FeeLogs(fee) + Reason(txs, groups, kept, starts, j))
  {
    hide Accepted, Refusal, RunKVs, RunTy, FeeKVs, RunLogs, FeeLogs, Count, Failure, Stops, FirstRefused;
    IndexInPiece(txs, height, groups, rs, kept, starts, j);
    assert PieceAt(txs, height, groups, rs, kept, starts, j);
    var s := starts[j];
    var piece := rs[s..s + Length(txs, groups, s)];
    assert piece[j - s] == rs[j];
    if txs[s].groupCount != 0 {
      var group := Members(txs, groups, s);
      MemberAt(txs, groups, s, j - s);
      MemberAt(txs, groups, s, 0);
      assert GroupContents(group, Count(kept[..s]), piece);
      if !TakesEffect(txs, height, groups, kept, starts, j) {
        RolledBackAt(group, Count(kept[..s]), FirstRefused(group, Count(kept[..s]), 0), piece, j - s);
      }
    }
  }

  /** The driver's receipt takes effect and has the error type. */
  ghost predicate ReturnsError(txs: seq<TxInput>, height: int, groups: bool, kept: seq<bool>, starts: seq<nat>, j: nat)
    requires j < |kept| == |starts| <= |txs| && starts[j] <= j
  {
    TakesEffect(txs, height, groups, kept, starts, j) && RunTy(txs[j].run(Count(kept[..j]))) == ExecErr
  }

  lemma TypeIsError(txs: seq<TxInput>, height: int, groups: bool, rs: seq<Receipt>, kept: seq<bool>, starts: seq<nat>,
                    j: nat)
    requires Aligned(txs, height, groups, rs, kept, starts) && j < |rs|
    ensures starts[j] <= j
    ensures rs[j].ty == ExecErr <==> !kept[j] || ReturnsError(txs, height, groups, kept, starts, j)
  {
    hide Count, Failure, Stops, TakesEffect, Accepted;
    assert PieceAt(txs, height, groups, rs, kept, starts, j);
    if kept[j] {
      ReceiptHolds(txs, height, groups, rs, kept, starts, j);
      if height == 0 && txs[starts[j]].groupCount == 0 { GenesisTakesEffect(txs, groups, kept, starts, j); }
    } else {
      assert rs[starts[j]..starts[j] + Length(txs, groups, starts[j])][j - starts[j]] == rs[j];
    }
  }

  lemma GenesisTakesEffect(txs: seq<TxInput>, groups: bool, kept: seq<bool>, starts: seq<nat>, j: nat)
    requires j < |kept| == |starts| <= |txs| && starts[j] <= j && txs[starts[j]].groupCount == 0
    ensures TakesEffect(txs, 0, groups, kept, starts, j)
  {
  }

  /** The index of a transaction is the number of earlier receipts that are not errors exactly if
      no earlier driver returned a receipt of the error type that took effect. */
  lemma {:induction false} IndexCountsReceipts(txs: seq<TxInput>, height: int, groups: bool, rs: seq<Receipt>,
                                               kept: seq<bool>, starts: seq<nat>, n: nat)
    requires Aligned(txs, height, groups, rs, kept, starts) && n <= |rs|
    ensures forall j :: 0 <= j < n ==> starts[j] <= j
    ensures NonErrors(rs[..n]) <= Count(kept[..n])
    ensures NonErrors(rs[..n]) == Count(kept[..n]) <==>
            forall j :: 0 <= j < n && kept[j] ==> !ReturnsError(txs, height, groups, kept, starts, j)
  {
    hide PieceAt, ReturnsError;
    if n > 0 {
      IndexCountsReceipts(txs, height, groups, rs, kept, starts, n - 1);
      TypeIsError(txs, height, groups, rs, kept, starts, n - 1);
      assert rs[..n][..n - 1] == rs[..n - 1] && kept[..n][..n - 1] == kept[..n - 1];
    }
  }

  /** A driver that returns a receipt of the error type: the next transaction gets index 1 although
      no receipt before it is free of error. */
  lemma ErrorTypeUsesIndex()
    ensures var r := Receipt(ExecErr, [], []);
            var tx := TxInput(0, None, None, Free, _ => DriverRun([], Done(Some(r)), true, None));
            && Aligned([tx, tx], 1, true, [r, r], [true, true], [0, 1])
            && Count([true, true][..1]) == 1 && NonErrors([r, r][..1]) == 0
  {
    var r := Receipt(ExecErr, [], []);
    var tx := TxInput(0, None, None, Free, _ => DriverRun([], Done(Some(r)), true, None));
    var txs, rs := [tx, tx], [r, r];
    assert Keys([]) == {};
    assert Accepted(tx.run(0)) && Accepted(tx.run(1));
    assert [true, true][..0] == [] && [true, true][..1] == [true] && rs[..1] == [r];
    assert Count([true]) == 1 by { assert [true][..0] == []; }
    assert NonErrors([r]) == 0 by { assert [r][..0] == []; }
    assert rs[0..1] == [r] && rs[1..2] == [r];
    assert PieceAt(txs, 1, true, rs, [true, true], [0, 1], 0);
    assert PieceAt(txs, 1, true, rs, [true, true], [0, 1], 1);
  }
}
