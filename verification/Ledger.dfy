/** The example payment ledger: balances, and operations applied once by their stable identity. */
module Ledgers {
  import opened Basics
  import opened JsonValues
  import opened AgentActions
  import opened Sums

  const MAX_SQL_INTEGER := 0x7fff_ffff_ffff_ffff

  datatype Payment = Payment(source: string, destination: string, amount: nat)

  datatype Operation = Operation(digest: ActionDigest, payment: Payment)

  datatype Ledger = Ledger(accounts: map<string, int>, operations: map<string, Operation>)

  datatype LedgerError = InvalidValue | TooLarge | AccountExists | PaymentConflict | UnknownAccount | InsufficientBalance

  datatype Tx<+T> = Tx(ledger: Ledger, reply: Outcome<T, LedgerError>)

  function TextAt(arguments: map<string, Json>, name: string): Option<string> {
    if name in arguments && arguments[name].Str? && !Blank(arguments[name].text) then Some(arguments[name].text) else None
  }

  /** The payment an action describes: two different accounts and a positive integer, which a boolean is not. */
  function PaymentFields(action: ActionRequest): (r: Option<Payment>)
    ensures r.Some? ==> r.value.source != r.value.destination && r.value.amount > 0
  {
    var source := TextAt(action.arguments, "source_account");
    var destination := TextAt(action.arguments, "destination_account");
    if action.tool != "transfer_payment" || source.None? || destination.None? || source == destination then None
    else if "amount_cents" !in action.arguments then None
    else
      var amount := action.arguments["amount_cents"];
      if !amount.Int? || amount.number <= 0 then None else Some(Payment(source.value, destination.value, amount.number))
  }

  function Seed(l: Ledger, id: string, balance: int): Tx<()> {
    if Blank(id) || balance < 0 then Tx(l, Raised(InvalidValue))
    else if balance > MAX_SQL_INTEGER then Tx(l, Raised(TooLarge))
    else if id in l.accounts then Tx(l, Raised(AccountExists))
    else Tx(l.(accounts := l.accounts[id := balance]), Returned(()))
  }

  /** Money moved from one account to another. */
  function Moved(accounts: map<string, int>, p: Payment): map<string, int>
    requires p.source in accounts && p.destination in accounts && p.source != p.destination
  {
    accounts[p.source := accounts[p.source] - p.amount][p.destination := accounts[p.destination] + p.amount]
  }

  /** True for a new transfer, false for an identical replay. */
  function Commit(l: Ledger, action: ActionRequest): Tx<bool> {
    var fields := PaymentFields(action);
    if fields.None? then Tx(l, Raised(InvalidValue))
    else if action.id in l.operations then
      Tx(l, if l.operations[action.id].digest != DigestOf(action) then Raised(PaymentConflict) else Returned(false))
    else
      var p := fields.value;
      if p.source !in l.accounts || p.destination !in l.accounts then Tx(l, Raised(UnknownAccount))
      else if l.accounts[p.source] < p.amount then Tx(l, Raised(InsufficientBalance))
      else Tx(Ledger(Moved(l.accounts, p), l.operations[action.id := Operation(DigestOf(action), p)]), Returned(true))
  }

  function Reconcile(l: Ledger, action: ActionRequest): Evidence {
    if action.id !in l.operations then Evidence(action.id, NotCommitted, DigestOf(action), [])
    else
      var observed := l.operations[action.id].digest;
      Evidence(action.id, if observed == DigestOf(action) then Committed else Conflict, DigestOf(action), [observed])
  }

  class PaymentLedger {
    var accounts: map<string, int>
    var operations: map<string, Operation>

    function Contents(): Ledger
      reads this
    {
      Ledger(accounts, operations)
    }

    constructor ()
      ensures Contents() == Ledger(map[], map[])
    {
      accounts, operations := map[], map[];
    }

    method SeedAccount(id: string, balance: int) returns (r: Outcome<(), LedgerError>)
      modifies this
      ensures Tx(Contents(), r) == Seed(old(Contents()), id, balance)
    {
      if Blank(id) || balance < 0 {
        return Raised(InvalidValue);
      }
      if balance > MAX_SQL_INTEGER {
        return Raised(TooLarge);
      }
      if id in accounts {
        return Raised(AccountExists);
      }
      accounts := accounts[id := balance];
      return Returned(());
    }

    method CommitPayment(action: ActionRequest) returns (r: Outcome<bool, LedgerError>)
      modifies this
      ensures Tx(Contents(), r) == Commit(old(Contents()), action)
    {
      var fields := PaymentFields(action);
      if fields.None? {
        return Raised(InvalidValue);
      }
      if action.id in operations {
        if operations[action.id].digest != DigestOf(action) {
          return Raised(PaymentConflict);
        }
        return Returned(false);
      }
      var p := fields.value;
      if p.source !in accounts || p.destination !in accounts {
        return Raised(UnknownAccount);
      }
      if accounts[p.source] < p.amount {
        return Raised(InsufficientBalance);
      }
      accounts := accounts[p.source := accounts[p.source] - p.amount];
      accounts := accounts[p.destination := accounts[p.destination] + p.amount];
      operations := operations[action.id := Operation(DigestOf(action), p)];
      return Returned(true);
    }

    method ReconcilePayment(action: ActionRequest) returns (evidence: Evidence)
      ensures evidence == Reconcile(Contents(), action)
    {
      if action.id !in operations {
        return Evidence(action.id, NotCommitted, DigestOf(action), []);
      }
      var observed := operations[action.id].digest;
      if observed == DigestOf(action) {
        return Evidence(action.id, Committed, DigestOf(action), [observed]);
      }
      return Evidence(action.id, Conflict, DigestOf(action), [observed]);
    }
  }

  // ---------- one call ----------

  /** The arguments name an account under this key. */
  predicate NamesAccount(action: ActionRequest, key: string, account: string) {
    key in action.arguments && action.arguments[key] == Str(account) && !Blank(account)
  }

  /** The action describes this payment: money from its source account to its destination account. */
  predicate Describes(action: ActionRequest, p: Payment) {
    && action.tool == "transfer_payment"
    && NamesAccount(action, "source_account", p.source) && NamesAccount(action, "destination_account", p.destination)
    && p.source != p.destination && p.amount > 0
    && "amount_cents" in action.arguments && action.arguments["amount_cents"] == Int(p.amount)
  }

  /** The fields of a payment are read exactly as the arguments name them. */
  lemma ReadsPayments(action: ActionRequest, p: Payment)
    ensures PaymentFields(action) == Some(p) <==> Describes(action, p)
  {
  }

  /**
   * A payment goes through exactly when it describes one, its identity is unused, both accounts exist and the source
   * covers it; then the amount moves from the source to the destination and the operation is recorded.
   */
  lemma CommitsExactly(l: Ledger, action: ActionRequest, p: Payment)
    requires Describes(action, p)
    ensures var tx := Commit(l, action);
            && (tx.reply == Returned(true)
                <==> action.id !in l.operations && p.source in l.accounts && p.destination in l.accounts && l.accounts[p.source] >= p.amount)
            && (tx.reply == Returned(false) <==> action.id in l.operations && l.operations[action.id].digest == DigestOf(action))
            && (tx.reply == Raised(PaymentConflict) <==> action.id in l.operations && l.operations[action.id].digest != DigestOf(action))
            && (tx.reply != Returned(true) ==> tx.ledger == l)
            && (tx.reply == Returned(true) ==>
                  && tx.ledger.operations == l.operations[action.id := Operation(DigestOf(action), p)]
                  && tx.ledger.accounts.Keys == l.accounts.Keys
                  && forall account | account in l.accounts ::
                       tx.ledger.accounts[account]
                       == if account == p.source then l.accounts[account] - p.amount
                          else if account == p.destination then l.accounts[account] + p.amount else l.accounts[account])
  {
    ReadsPayments(action, p);
    hide PaymentFields;
  }

  /** Anything that describes no payment raises. */
  lemma OthersRaise(l: Ledger, action: ActionRequest)
    requires forall p :: !Describes(action, p)
    ensures Commit(l, action) == Tx(l, Raised(InvalidValue))
  {
    if PaymentFields(action).Some? {
      ReadsPayments(action, PaymentFields(action).value);
    }
    hide PaymentFields;
  }

  /** An account is seeded once, with what it is seeded with. */
  lemma SeedsExactly(l: Ledger, id: string, balance: int)
    ensures var tx := Seed(l, id, balance);
            && (tx.reply.Returned? <==> !Blank(id) && 0 <= balance <= 9_223_372_036_854_775_807 && id !in l.accounts)
            && tx.ledger == if tx.reply.Raised? then l else Ledger(l.accounts[id := balance], l.operations)
  {
  }

  // ---------- whole histories ----------

  datatype Step = SeedStep(id: string, balance: int) | PayStep(action: ActionRequest)

  function Next(l: Ledger, step: Step): Ledger {
    match step
    case SeedStep(id, balance) => Seed(l, id, balance).ledger
    case PayStep(action) => Commit(l, action).ledger
  }

  function After(steps: seq<Step>): Ledger {
    if steps == [] then Ledger(map[], map[]) else Next(After(steps[..|steps| - 1]), steps[|steps| - 1])
  }

  /** What each account was seeded with. */
  function Seeds(steps: seq<Step>): map<string, int> {
    if steps == [] then map[]
    else
      var before := steps[..|steps| - 1];
      match steps[|steps| - 1]
      case SeedStep(id, balance) => if Seed(After(before), id, balance).reply.Returned? then Seeds(before)[id := balance] else Seeds(before)
      case PayStep(_) => Seeds(before)
  }

  /** What an operation brings to an account, or takes from it. */
  function Effect(operations: map<string, Operation>, key: string, account: string): int {
    if key !in operations then 0
    else
      var p := operations[key].payment;
      (if p.destination == account then p.amount else 0) - (if p.source == account then p.amount else 0)
  }

  /** Inflows minus outflows over the recorded operations. */
  ghost function Net(operations: map<string, Operation>, account: string): int {
    Sum(operations.Keys, key => Effect(operations, key, account))
  }

  /** Each balance is its seed plus inflows minus outflows, and none is negative. */
  ghost predicate AddsUp(l: Ledger, seeds: map<string, int>) {
    && seeds.Keys == l.accounts.Keys
    && (forall account | account in l.accounts :: l.accounts[account] == seeds[account] + Net(l.operations, account) && l.accounts[account] >= 0)
    && (forall key | key in l.operations ::
          && l.operations[key].payment.source in l.accounts && l.operations[key].payment.destination in l.accounts
          && l.operations[key].digest.id == key)
  }

  lemma NewOperationMovesNet(operations: map<string, Operation>, key: string, o: Operation, account: string)
    requires key !in operations
    ensures Net(operations[key := o], account) == Net(operations, account) + Effect(operations[key := o], key, account)
  {
    var after := operations[key := o];
    SumTakesOut(after.Keys, k => Effect(after, k, account), key);
    assert after.Keys - {key} == operations.Keys;
    SumOfEqualTerms(operations.Keys, k => Effect(after, k, account), k => Effect(operations, k, account));
  }

  /** An account nobody has paid into or out of yet. */
  lemma NetOfStranger(operations: map<string, Operation>, account: string)
    requires forall key | key in operations :: operations[key].payment.source != account && operations[key].payment.destination != account
    ensures Net(operations, account) == 0
  {
    SumOfEqualTerms(operations.Keys, key => Effect(operations, key, account), key => 0);
    SumOfZeros(operations.Keys);
  }

  lemma {:induction false} SumOfZeros(keys: set<string>)
    ensures Sum(keys, key => 0) == 0
  {
    if keys != {} {
      var k :| k in keys;
      SumTakesOut(keys, key => 0, k);
      SumOfZeros(keys - {k});
    }
  }

  lemma SeedAddsUp(l: Ledger, seeds: map<string, int>, id: string, balance: int)
    requires AddsUp(l, seeds) && Seed(l, id, balance).reply.Returned?
    ensures AddsUp(Seed(l, id, balance).ledger, seeds[id := balance])
  {
    NetOfStranger(l.operations, id);
    hide Net;
  }

  lemma PaymentAddsUp(l: Ledger, seeds: map<string, int>, action: ActionRequest)
    requires AddsUp(l, seeds) && Commit(l, action).reply == Returned(true)
    ensures AddsUp(Commit(l, action).ledger, seeds)
  {
    hide Net, PaymentFields;
    var o := Operation(DigestOf(action), PaymentFields(action).value);
    var after := Commit(l, action).ledger;
    forall account | account in after.accounts
      ensures after.accounts[account] == seeds[account] + Net(after.operations, account) && after.accounts[account] >= 0
    {
      NewOperationMovesNet(l.operations, action.id, o, account);
    }
  }

  lemma {:induction false} HistoriesAddUp(steps: seq<Step>)
    ensures AddsUp(After(steps), Seeds(steps))
  {
    if steps != [] {
      var before, step := steps[..|steps| - 1], steps[|steps| - 1];
      HistoriesAddUp(before);
      hide AddsUp, PaymentFields;
      var l := After(before);
      match step
      case SeedStep(id, balance) =>
        if Seed(l, id, balance).reply.Returned? {
          SeedAddsUp(l, Seeds(before), id, balance);
        }
      case PayStep(action) =>
        if Commit(l, action).reply == Returned(true) {
          PaymentAddsUp(l, Seeds(before), action);
        }
    }
  }

  /** After any seeds and payments: balance equals seed plus inflows minus outflows over recorded operations, and is not negative. */
  lemma BalanceEquation(steps: seq<Step>, account: string)
    requires account in After(steps).accounts
    ensures account in Seeds(steps)
    ensures After(steps).accounts[account] == Seeds(steps)[account] + Net(After(steps).operations, account)
    ensures After(steps).accounts[account] >= 0
  {
    HistoriesAddUp(steps);
    hide After, Seeds, Net;
  }

  ghost function Total(accounts: map<string, int>): int {
    Sum(accounts.Keys, a => if a in accounts then accounts[a] else 0)
  }

  lemma TotalAfterUpdate(accounts: map<string, int>, a: string, balance: int)
    ensures Total(accounts[a := balance]) == Total(accounts) + balance - (if a in accounts then accounts[a] else 0)
  {
    var after := accounts[a := balance];
    SumTakesOut(after.Keys, k => if k in after then after[k] else 0, a);
    if a in accounts {
      SumTakesOut(accounts.Keys, k => if k in accounts then accounts[k] else 0, a);
      assert after.Keys == accounts.Keys;
    } else {
      assert after.Keys - {a} == accounts.Keys;
    }
    SumOfEqualTerms(accounts.Keys - {a}, k => if k in accounts then accounts[k] else 0, k => if k in after then after[k] else 0);
    assert accounts.Keys - {a} == after.Keys - {a};
  }

  /** Payments neither create nor destroy money: the total is the sum of the seeds. */
  lemma {:induction false} TotalIsSeeded(steps: seq<Step>)
    ensures Total(After(steps).accounts) == Total(Seeds(steps))
  {
    if steps != [] {
      var before, step := steps[..|steps| - 1], steps[|steps| - 1];
      TotalIsSeeded(before);
      HistoriesAddUp(before);
      hide Total, PaymentFields, Net;
      var l := After(before);
      match step
      case SeedStep(id, balance) =>
        TotalAfterUpdate(l.accounts, id, balance);
        TotalAfterUpdate(Seeds(before), id, balance);
      case PayStep(action) =>
        if Commit(l, action).reply == Returned(true) {
          var p := PaymentFields(action).value;
          var taken := l.accounts[p.source := l.accounts[p.source] - p.amount];
          TotalAfterUpdate(l.accounts, p.source, l.accounts[p.source] - p.amount);
          TotalAfterUpdate(taken, p.destination, taken[p.destination] + p.amount);
        }
    }
  }

  /** A recorded operation is never changed or dropped. */
  lemma {:induction false} OperationsStay(steps: seq<Step>, n: nat, key: string)
    requires n <= |steps| && key in After(steps[..n]).operations
    ensures key in After(steps).operations && After(steps).operations[key] == After(steps[..n]).operations[key]
  {
    if n == |steps| {
      assert steps[..n] == steps;
    } else {
      assert steps[..|steps| - 1][..n] == steps[..n];
      OperationsStay(steps[..|steps| - 1], n, key);
    }
  }

  /**
   * Once an action was paid it is never paid again: after any further steps, repeating it returns false and changes
   * nothing, and using its identity for anything else raises and changes nothing.
   */
  lemma PaidOnce(steps: seq<Step>, n: nat, action: ActionRequest, again: ActionRequest)
    requires n < |steps| && steps[n] == PayStep(action) && Commit(After(steps[..n]), action).reply == Returned(true)
    requires again.id == action.id
    ensures var l := After(steps);
            && Commit(l, again).ledger == l
            && (DigestOf(again) == DigestOf(action) ==> Commit(l, again).reply == Returned(false))
            && (DigestOf(again) != DigestOf(action) ==> Commit(l, again).reply.Raised?)
  {
    assert steps[..n + 1][..n] == steps[..n];
    OperationsStay(steps, n + 1, action.id);
    hide After;
    if DigestOf(again) == DigestOf(action) {
      SameDigestSamePayment(action, again);
    }
  }

  lemma SameDigestSamePayment(a: ActionRequest, b: ActionRequest)
    requires DigestOf(a) == DigestOf(b)
    ensures PaymentFields(a) == PaymentFields(b)
  {
  }

  /** A payment that does not return true leaves the ledger as it was; one that does moves the amount between its two accounts only. */
  lemma CommitMovesOrKeeps(l: Ledger, action: ActionRequest)
    ensures var tx := Commit(l, action);
            if tx.reply != Returned(true) then tx.ledger == l
            else
              PaymentFields(action).Some? &&
              var p := PaymentFields(action).value;
              && p.source in l.accounts && p.destination in l.accounts && tx.ledger.accounts.Keys == l.accounts.Keys
              && tx.ledger.accounts[p.source] == l.accounts[p.source] - p.amount
              && tx.ledger.accounts[p.destination] == l.accounts[p.destination] + p.amount
              && forall other | other in l.accounts && other !in {p.source, p.destination} :: tx.ledger.accounts[other] == l.accounts[other]
  {
  }

  /** Reconciliation says committed exactly when a payment with this digest went through somewhere in the history. */
  lemma ReconcilesExactly(steps: seq<Step>, action: ActionRequest)
    ensures Reconcile(After(steps), action).status == Committed
       <==> exists n :: PaidAt(steps, n, action)
  {
    if Reconcile(After(steps), action).status == Committed {
      var n := WhenRecorded(steps, action.id);
      assert PaidAt(steps, n, action);
    }
    if n :| PaidAt(steps, n, action) {
      assert steps[..n + 1][..n] == steps[..n];
      OperationsStay(steps, n + 1, action.id);
    }
  }

  /** Reconciliation says not committed exactly when nothing was ever paid under the identity. */
  lemma NotCommittedExactly(steps: seq<Step>, action: ActionRequest)
    ensures Reconcile(After(steps), action).status == NotCommitted <==> !exists n :: UsedAt(steps, n, action.id)
    ensures Reconcile(After(steps), action).actionId == action.id && Reconcile(After(steps), action).expected == DigestOf(action)
  {
    if action.id in After(steps).operations {
      var n := WhenRecorded(steps, action.id);
      assert UsedAt(steps, n, action.id);
    }
    if n :| UsedAt(steps, n, action.id) {
      assert steps[..n + 1][..n] == steps[..n];
      OperationsStay(steps, n + 1, action.id);
    }
  }

  /** A payment under this identity went through at step `n`. */
  predicate UsedAt(steps: seq<Step>, n: int, id: string) {
    && 0 <= n < |steps| && steps[n].PayStep? && steps[n].action.id == id
    && Commit(After(steps[..n]), steps[n].action).reply == Returned(true)
  }

  predicate PaidAt(steps: seq<Step>, n: int, action: ActionRequest) {
    && 0 <= n < |steps| && steps[n].PayStep? && DigestOf(steps[n].action) == DigestOf(action)
    && Commit(After(steps[..n]), steps[n].action).reply == Returned(true)
  }

  lemma {:induction false} WhenRecorded(steps: seq<Step>, key: string) returns (n: nat)
    requires key in After(steps).operations
    ensures n < |steps| && steps[n].PayStep? && Commit(After(steps[..n]), steps[n].action).reply == Returned(true)
    ensures DigestOf(steps[n].action) == After(steps).operations[key].digest && steps[n].action.id == key
  {
    var last := |steps| - 1;
    if key in After(steps[..last]).operations {
      n := WhenRecorded(steps[..last], key);
      assert steps[..last][..n] == steps[..n];
    } else {
      n := last;
    }
  }
}
