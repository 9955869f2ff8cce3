/** The ten payment steps, as the remote calls they make, over one bank and one repository. */
module Steps {
  import opened Domain
  import opened SagaCore
  import Bank
  import Repository

  const RESERVATION_TTL: int := 5 * MINUTE

  /** The environment's part in one call: does it get through, does its answer come back, and when. */
  datatype Turn = Turn(reachable: bool, answered: bool, at: int)

  /** A failure schedule: the n-th call of a run meets turn n. */
  type Oracle = nat -> Turn

  /** The services besides bank and repository. */
  datatype Service = Directory | Router | Quoter | Compliance | Clearing | Reconciler | Notifier

  /** A call of a service takes effect if the service agrees: an unreachable one and a refusal are the same here. */
  datatype Op =
    | CheckFields
    | Remote(service: Service)
    | WriteStatus(to: Status)
    | WriteRoute
    | MarkReserved
    | BankCall(operation: Bank.Operation)

  /** One line of the call log: a call of a payment, whether it took effect, and whether the caller saw success. */
  datatype Entry = Entry(payment: PaymentId, op: Op, done: bool, ok: bool)

  /** What all payments share. */
  datatype Shared = Shared(book: Bank.Book, tables: Repository.Tables)

  datatype World = World(shared: Shared, log: seq<Entry>)

  predicate ValidFields(p: Payment) {
    && p.amount > 0
    && p.sourceBIC != "" && p.destinationBIC != ""
    && p.sourceAccount != "" && p.destAccount != ""
    && p.currency != ""
  }

  function AccountOf(operation: Bank.Operation, p: Payment): string {
    if operation.Hold? || operation.Release? then p.sourceAccount else p.destAccount
  }

  function ChangeOf(op: Op, p: Payment, at: int): Repository.Change
    requires op.WriteStatus? || op.WriteRoute? || op.MarkReserved?
  {
    match op
    case WriteStatus(to) => Repository.UpdateStatus(p.id, to)
    case WriteRoute => Repository.UpdateRoute(p.id)
    case MarkReserved => Repository.MarkReserved(p.id, at, RESERVATION_TTL)
  }

  /** One atomic call: the new shared state, and whether it took effect. */
  function Effect(op: Op, p: Payment, s: Shared, t: Turn): (Shared, bool) {
    match op
    case CheckFields => (s, ValidFields(p))
    case Remote(_) => (s, t.reachable)
    case BankCall(operation) =>
      var account := AccountOf(operation, p);
      if t.reachable
      then (s.(book := Bank.Apply(s.book, operation, account, p.amount)),
            Bank.Accepts(s.book, operation, account, p.amount))
      else (s, false)
    case _ =>
      var change := ChangeOf(op, p, t.at);
      (s.(tables := Repository.Transact(s.tables, change, t.reachable)),
       t.reachable && Repository.Accepts(s.tables, change))
  }

  /** The caller sees success if the call took effect and its answer came back; the field check is local. */
  predicate Seen(op: Op, done: bool, t: Turn) {
    done && (op.CheckFields? || t.answered)
  }

  function Invoke(op: Op, p: Payment, w: World, o: Oracle): (World, bool) {
    var t := o(|w.log|);
    var (s, done) := Effect(op, p, w.shared, t);
    (World(s, w.log + [Entry(p.id, op, done, Seen(op, done, t))]), Seen(op, done, t))
  }

  /** A request whose failure ends the step, or one whose failure is logged and dropped. */
  datatype Request = Must(op: Op) | Try(op: Op)

  function RunCalls(calls: seq<Request>, c: nat, p: Payment, w: World, o: Oracle): (World, bool)
    requires c <= |calls|
    decreases |calls| - c
  {
    if c == |calls| then (w, true)
    else
      var (w1, ok) := Invoke(calls[c].op, p, w, o);
      if calls[c].Must? && !ok then (w1, false) else RunCalls(calls, c + 1, p, w1, o)
  }

  datatype StepKind =
    | Validate | Lookup | Route | Quote | Screen
    | Reserve | Commit | Settle | RecordReconciliation | Notify

  function ExecCalls(kind: StepKind): seq<Request> {
    match kind
    case Validate => [Must(CheckFields), Must(WriteStatus(Validated))]
    case Lookup => [Must(Remote(Directory)), Must(WriteStatus(LookedUp))]
    case Route => [Must(Remote(Router)), Must(WriteRoute)]
    case Quote => [Must(Remote(Quoter)), Must(WriteStatus(Quoted))]
    case Screen => [Must(Remote(Compliance)), Must(WriteStatus(Screened))]
    case Reserve => [Must(BankCall(Bank.Hold)), Must(MarkReserved)]
    case Commit => [Must(BankCall(Bank.Deposit)), Must(WriteStatus(Committed))]
    case Settle => [Must(Remote(Clearing)), Must(WriteStatus(Settled))]
    case RecordReconciliation => [Try(Remote(Reconciler))]
    case Notify => [Try(Remote(Notifier)), Try(Remote(Notifier))]
  }

  function CompCalls(kind: StepKind): seq<Request> {
    match kind
    case Lookup => []
    case Route => []
    case RecordReconciliation => []
    case Notify => []
    case Reserve => [Try(BankCall(Bank.Release)), Must(WriteStatus(Aborted))]
    case Commit => [Try(BankCall(Bank.Withdraw)), Must(WriteStatus(Aborted))]
    case _ => [Must(WriteStatus(Aborted))]
  }

  /** The step list the gateway wires; the settlement step is present only when settlement is configured. */
  function Pipeline(settles: bool): seq<StepKind> {
    [Validate, Lookup, Route, Quote, Screen, Reserve, Commit]
    + (if settles then [Settle] else [])
    + [RecordReconciliation, Notify]
  }

  function StepOf(kind: StepKind, o: Oracle): Step<Payment, World> {
    Step((p, w) => RunCalls(ExecCalls(kind), 0, p, w, o), (p, w) => RunCalls(CompCalls(kind), 0, p, w, o))
  }

  /** The gateway's one saga, shared by all payments. */
  function Wired(settles: bool, o: Oracle): seq<Step<Payment, World>> {
    var kinds := Pipeline(settles);
    seq(|kinds|, i requires 0 <= i < |kinds| => StepOf(kinds[i], o))
  }

  lemma {:induction false} RunOne(calls: seq<Request>, p: Payment, w: World, o: Oracle)
    requires |calls| == 1
    ensures var (w1, ok) := Invoke(calls[0].op, p, w, o);
            RunCalls(calls, 0, p, w, o) == (w1, calls[0].Try? || ok)
  {
    var (w1, ok) := Invoke(calls[0].op, p, w, o);
    assert RunCalls(calls, 1, p, w1, o) == (w1, true);
  }

  lemma {:induction false} RunTwo(calls: seq<Request>, p: Payment, w: World, o: Oracle)
    requires |calls| == 2
    ensures var (w1, ok1) := Invoke(calls[0].op, p, w, o);
            var (w2, ok2) := Invoke(calls[1].op, p, w1, o);
            RunCalls(calls, 0, p, w, o)
            == if calls[0].Must? && !ok1 then (w1, false) else (w2, calls[1].Try? || ok2)
  {
    var (w1, ok1) := Invoke(calls[0].op, p, w, o);
    var (w2, ok2) := Invoke(calls[1].op, p, w1, o);
    assert RunCalls(calls, 2, p, w2, o) == (w2, true);
    assert RunCalls(calls, 1, p, w1, o) == (w2, calls[1].Try? || ok2);
  }

  // ------------------------------------------------------------ the steps as they run

  /** Executes steps against the bank and repository objects, one call at a time. */
  class StepRunner {
    const bank: Bank.BankState
    const repo: Repository.PaymentRepo
    const oracle: Oracle
    var calls: nat
    ghost var log: seq<Entry>

    ghost predicate Valid()
      reads this
    {
      calls == |log|
    }

    ghost function Contents(): World
      reads this, bank, repo
    {
      World(Shared(bank.Contents(), repo.Contents()), log)
    }

    constructor (bank: Bank.BankState, repo: Repository.PaymentRepo, oracle: Oracle)
      ensures Valid() && this.bank == bank && this.repo == repo && this.oracle == oracle
      ensures Contents() == World(Shared(bank.Contents(), repo.Contents()), [])
    {
      this.bank, this.repo, this.oracle := bank, repo, oracle;
      calls, log := 0, [];
    }

    method Check(p: Payment) returns (ok: bool)
      requires Valid()
      modifies this
      ensures Valid() && (Contents(), ok) == Invoke(CheckFields, p, old(Contents()), oracle)
      ensures ok <==>
                && p.amount > 0
                && p.sourceBIC != "" && p.destinationBIC != ""
                && p.sourceAccount != "" && p.destAccount != ""
                && p.currency != ""
    {
      ok := true;
      if p.amount <= 0 {
        ok := false;
      } else if p.sourceBIC == "" || p.destinationBIC == "" {
        ok := false;
      } else if p.sourceAccount == "" || p.destAccount == "" {
        ok := false;
      } else if p.currency == "" {
        ok := false;
      }
      calls, log := calls + 1, log + [Entry(p.id, CheckFields, ok, ok)];
    }

    method Ask(service: Service, p: Payment) returns (ok: bool)
      requires Valid()
      modifies this
      ensures Valid() && (Contents(), ok) == Invoke(Remote(service), p, old(Contents()), oracle)
    {
      var turn := oracle(calls);
      ok := turn.reachable && turn.answered;
      calls, log := calls + 1, log + [Entry(p.id, Remote(service), turn.reachable, ok)];
    }

    method CallBank(operation: Bank.Operation, p: Payment) returns (ok: bool)
      requires Valid()
      modifies this, bank
      ensures Valid() && (Contents(), ok) == Invoke(BankCall(operation), p, old(Contents()), oracle)
    {
      var turn := oracle(calls);
      var done := turn.reachable;
      if done {
        match operation
        case Hold => done := bank.Reserve(p.sourceAccount, p.amount);
        case Release => done := bank.ReleaseReservation(p.sourceAccount, p.amount);
        case Deposit => done := bank.Credit(p.destAccount, p.amount);
        case Withdraw => done := bank.ReverseCredit(p.destAccount, p.amount);
      }
      ok := done && turn.answered;
      calls, log := calls + 1, log + [Entry(p.id, BankCall(operation), done, ok)];
    }

    method Write(op: Op, p: Payment) returns (ok: bool)
      requires Valid()
      requires op.WriteStatus? || op.WriteRoute? || op.MarkReserved?
      modifies this, repo
      ensures Valid() && (Contents(), ok) == Invoke(op, p, old(Contents()), oracle)
    {
      var turn := oracle(calls);
      var faults := if turn.reachable then {} else {Repository.Begin, Repository.Statement};
      var done;
      match op {
        case WriteStatus(to) => done := repo.UpdateStatus(p.id, to, faults);
        case WriteRoute => done := repo.UpdateRoute(p.id, faults);
        case MarkReserved => done := repo.MarkReserved(p.id, turn.at, RESERVATION_TTL, faults);
      }
      ok := done && turn.answered;
      calls, log := calls + 1, log + [Entry(p.id, op, done, ok)];
    }

    /** A service call that must succeed, followed by the status write that records it. */
    method AskThenWrite(service: Service, p: Payment, op: Op) returns (ok: bool)
      requires Valid()
      requires op.WriteStatus? || op.WriteRoute?
      modifies this, repo
      ensures Valid()
      ensures (Contents(), ok) == RunCalls([Must(Remote(service)), Must(op)], 0, p, old(Contents()), oracle)
    {
      RunTwo([Must(Remote(service)), Must(op)], p, Contents(), oracle);
      ok := Ask(service, p);
      if ok {
        ok := Write(op, p);
      }
    }

    method Execute(kind: StepKind, p: Payment) returns (ok: bool)
      requires Valid()
      modifies this, bank, repo
      ensures Valid()
      ensures (Contents(), ok) == StepOf(kind, oracle).exec(p, old(Contents()))
    {
      if kind.RecordReconciliation? {
        RunOne(ExecCalls(kind), p, Contents(), oracle);
      } else {
        RunTwo(ExecCalls(kind), p, Contents(), oracle);
      }
      match kind
      case Validate =>
        ok := Check(p);
        if ok {
          ok := Write(WriteStatus(Validated), p);
        }
      case Lookup => ok := AskThenWrite(Directory, p, WriteStatus(LookedUp));
      case Route => ok := AskThenWrite(Router, p, WriteRoute);
      case Quote => ok := AskThenWrite(Quoter, p, WriteStatus(Quoted));
      case Screen => ok := AskThenWrite(Compliance, p, WriteStatus(Screened));
      case Reserve =>
        ok := CallBank(Bank.Hold, p);
        if ok {
          ok := Write(MarkReserved, p);
        }
      case Commit =>
        ok := CallBank(Bank.Deposit, p);
        if ok {
          ok := Write(WriteStatus(Committed), p);
        }
      case Settle => ok := AskThenWrite(Clearing, p, WriteStatus(Settled));
      case RecordReconciliation =>
        var _ := Ask(Reconciler, p);
        ok := true;
      case Notify =>
        var _ := Ask(Notifier, p);
        var _ := Ask(Notifier, p);
        ok := true;
    }

    method Compensate(kind: StepKind, p: Payment) returns (ok: bool)
      requires Valid()
      modifies this, bank, repo
      ensures Valid()
      ensures (Contents(), ok) == StepOf(kind, oracle).comp(p, old(Contents()))
    {
      match kind
      case Lookup => ok := true;
      case Route => ok := true;
      case RecordReconciliation => ok := true;
      case Notify => ok := true;
      case Reserve =>
        RunTwo(CompCalls(kind), p, Contents(), oracle);
        var _ := CallBank(Bank.Release, p);
        ok := Write(WriteStatus(Aborted), p);
      case Commit =>
        RunTwo(CompCalls(kind), p, Contents(), oracle);
        var _ := CallBank(Bank.Withdraw, p);
        ok := Write(WriteStatus(Aborted), p);
      case _ =>
        RunOne(CompCalls(kind), p, Contents(), oracle);
        ok := Write(WriteStatus(Aborted), p);
    }
  }
}
