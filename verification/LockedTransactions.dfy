/** The wallet transactions as they really interleave: lock, read, write and commit are separate
    steps of any number of transactions in flight, with single-statement updates in between. */
module LockedTransactions {
  import opened Wrappers
  import opened Money
  import opened Bank
  import opened LedgerTotals
  import opened BankInvariant
  import opened Purchases
  import LedgerLaw

  // ---- what a transaction is for

  datatype Job =
    | PostJob(t: TenantId, kind: EntryKind, amount: real, origin: Origin, allowNegative: bool)
    | ReserveJob(t: TenantId, amount: real, expiresAt: int)
    | FinalizeJob(hold: nat, charge: real)
    | ReleaseJob(hold: nat, status: HoldStatus)
    | CompleteJob(purchase: nat, intent: Option<bool>)

  /** What callers ask for: usage is charged only by finalizing, purchases only by completing. */
  predicate Legal(job: Job) {
    match job
    case PostJob(_, kind, _, _, _) => kind != UsageCharge && kind != Purchase
    case ReserveJob(_, amount, _) => amount > 0.0
    case FinalizeJob(_, charge) => charge >= 0.0
    case ReleaseJob(_, status) => status == Released || status == Expired
    case CompleteJob(_, _) => true
  }

  /** The job done in one step. */
  function Atomic(db: Tables, job: Job): Result<Tables, Refusal>
    requires WellFormed(db.bank)
  {
    match job
    case CompleteJob(p, intent) => Complete(db, p, intent)
    case _ =>
      var r := match job
        case PostJob(t, kind, amount, origin, allowNegative) => Post(db.bank, t, kind, amount, origin, allowNegative)
        case ReserveJob(t, amount, expiresAt) => Reserve(db.bank, t, amount, expiresAt)
        case FinalizeJob(h, charge) => Finalize(db.bank, h, charge)
        case ReleaseJob(h, status) => Release(db.bank, h, status)
        case CompleteJob(_, _) => Success(db.bank);
      match r
      case Success(bank) => Success(db.(bank := bank))
      case Failure(e) => Failure(e)
  }

  /** Statements that commit on their own. */
  datatype Statement =
    | CreateWallet(t: TenantId)
    | UpdateSettings(t: TenantId, status: Option<WalletStatus>, threshold: Option<Option<int>>)
    | InsertPurchase(t: TenantId, rail: Rail, amount: real, now: int)
    | SeePurchasePending(purchase: nat, seen: Status)
    | WriteSeenStatus(write: nat)
    | TimeOut(purchase: nat)
    | WriteRefunded(purchase: nat)

  function Execute(db: Tables, stmt: Statement): Tables {
    match stmt
    case CreateWallet(t) => db.(bank := Touch(db.bank, t))
    case UpdateSettings(t, status, threshold) => db.(bank := Settings(db.bank, t, status, threshold))
    case InsertPurchase(t, rail, amount, now) => Submit(db, t, rail, amount, now)
    case SeePurchasePending(p, status) => SeePending(db, p, status)
    case WriteSeenStatus(k) => WriteStale(db, k)
    case TimeOut(p) => TimeOutIf(db, (i: nat, row: CreditPurchase) => i == p)
    case WriteRefunded(p) => MarkRefunded(db, p)
  }

  // ---- the interleaved machine

  datatype Row = WalletRow(t: TenantId) | HoldRow(hold: nat) | PurchaseRow(purchase: nat)

  /** The private copies of the rows a transaction works on. */
  datatype Draft = Draft(wallet: Wallet, hold: Option<Hold>, purchase: Option<CreditPurchase>, entry: Option<Entry>)

  datatype Phase =
    | Begun                                       // no lock yet
    | RowLocked                                   // reservation or purchase row locked
    | RowRead(row: Draft)                         // and read under the lock
    | Peeked(row: Draft, missing: bool)           // looked whether the tenant's wallet exists
    | WalletLocked(row: Draft)                    // wallet row locked, or inserted
    | Writing(seen: Draft, draft: Draft, done: nat)

  datatype Tx = Tx(job: Job, phase: Phase)

  datatype Event = Committed(job: Job) | Executed(stmt: Statement)

  /** `history` is the order in which things became visible. */
  datatype Fine = Fine(db: Tables, locks: map<Row, nat>, txs: map<nat, Tx>, history: seq<Event>)

  const Nothing := Draft(NewWallet, None, None, None)

  function FirstRow(job: Job): Option<Row> {
    match job
    case FinalizeJob(h, _) => Some(HoldRow(h))
    case ReleaseJob(h, _) => Some(HoldRow(h))
    case CompleteJob(p, _) => Some(PurchaseRow(p))
    case _ => None
  }

  /** The wallet a transaction ends up working on, once its first row is read. */
  function Owner(job: Job, row: Draft): TenantId {
    match job
    case PostJob(t, _, _, _, _) => t
    case ReserveJob(t, _, _) => t
    case FinalizeJob(_, _) => if row.hold.Some? then row.hold.value.tenant else ""
    case ReleaseJob(_, _) => if row.hold.Some? then row.hold.value.tenant else ""
    case CompleteJob(_, _) => if row.purchase.Some? then row.purchase.value.tenant else ""
  }

  predicate ByTenant(job: Job) { job.PostJob? || job.ReserveJob? || job.CompleteJob? }

  function PhaseRow(phase: Phase): Draft {
    match phase
    case RowRead(row) => row
    case Peeked(row, _) => row
    case WalletLocked(row) => row
    case Writing(seen, _, _) => seen
    case _ => Nothing
  }

  /** The row the transaction's next step has to lock. */
  function Wanted(tx: Tx): Option<Row> {
    match tx.phase
    case Begun => FirstRow(tx.job)
    case RowRead(row) => if ByTenant(tx.job) then None else Some(WalletRow(Owner(tx.job, row)))
    case Peeked(row, _) => Some(WalletRow(Owner(tx.job, row)))
    case _ => None
  }

  /** The rows it has locked. */
  predicate Owns(tx: Tx, r: Row) {
    || (!tx.phase.Begun? && FirstRow(tx.job) == Some(r))
    || ((tx.phase.WalletLocked? || tx.phase.Writing?) && r == WalletRow(Owner(tx.job, PhaseRow(tx.phase))))
  }

  /** Read the locked first row; None when its status makes the transaction stop. */
  function ReadFirst(db: Tables, job: Job): Option<Draft> {
    match job
    case FinalizeJob(h, _) =>
      if h < |db.bank.holds| && db.bank.holds[h].status == Held
      then Some(Nothing.(hold := Some(db.bank.holds[h]))) else None
    case ReleaseJob(h, _) =>
      if h < |db.bank.holds| && db.bank.holds[h].status == Held
      then Some(Nothing.(hold := Some(db.bank.holds[h]))) else None
    case CompleteJob(p, _) =>
      if p < |db.purchases| && db.purchases[p].status == Pending
      then Some(Nothing.(purchase := Some(db.purchases[p]))) else None
    case _ => Some(Nothing)
  }

  function WriteCount(job: Job): nat {
    match job
    case PostJob(_, _, _, _, _) => 2
    case ReserveJob(_, _, _) => 2
    case FinalizeJob(_, charge) => if charge == 0.0 then 2 else 4
    case ReleaseJob(_, _) => 2
    case CompleteJob(_, _) => 3
  }

  /** Insert the ledger row, unless the ledger refuses the amount. */
  function WriteEntry(d: Draft, t: TenantId, kind: EntryKind, amount: real, origin: Origin, allowNegative: bool)
    : Option<Draft>
  {
    if PostRefusal(d.wallet, amount, allowNegative).Some? then None
    else Some(d.(entry := Some(EntryFor(t, d.wallet, kind, amount, origin))))
  }

  /** The k-th write statement of a job, on the private copies; None when the code throws there. */
  function Write(job: Job, d: Draft, k: nat): Option<Draft> {
    match job
    case PostJob(t, kind, amount, origin, allowNegative) =>
      if k == 0 then WriteEntry(d, t, kind, amount, origin, allowNegative)
      else Some(d.(wallet := Charged(d.wallet, kind, amount)))
    case ReserveJob(t, amount, expiresAt) =>
      if k == 0 then
        if ReserveRefusal(d.wallet, amount).Some? then None
        else Some(d.(hold := Some(Hold(t, Stored(amount), Held, expiresAt, 0))))
      else Some(d.(wallet := d.wallet.(reserved := Stored(d.wallet.reserved as real + amount))))
    case FinalizeJob(h, charge) =>
      if d.hold.None? then None
      else if k == 0 then Some(d.(wallet := Unreserved(d.wallet, d.hold.value)))
      else if k == 1 then Some(d.(hold := Some(d.hold.value.(status := Finalized, charged := Stored(charge)))))
      else if k == 2 then WriteEntry(d, d.hold.value.tenant, UsageCharge, -charge, ForHold(h), true)
      else Some(d.(wallet := Charged(d.wallet, UsageCharge, -charge)))
    case ReleaseJob(h, status) =>
      if d.hold.None? then None
      else if k == 0 then Some(d.(wallet := Unreserved(d.wallet, d.hold.value)))
      else Some(d.(hold := Some(d.hold.value.(status := status))))
    case CompleteJob(p, intent) =>
      if d.purchase.None? then None
      else if k == 0 then
        WriteEntry(d, d.purchase.value.tenant, Purchase, d.purchase.value.amount as real, ForPurchase(p), false)
      else if k == 1 then Some(d.(wallet := Charged(d.wallet, Purchase, d.purchase.value.amount as real)))
      else Some(d.(purchase := Some(d.purchase.value.(status := Completed,
             paidIntent := if intent.Some? then intent.value else d.purchase.value.paidIntent))))
  }

  /** Make a transaction's copies visible. */
  function Install(db: Tables, job: Job, t: TenantId, d: Draft): Tables {
    var holds := match job
      case ReserveJob(_, _, _) => if d.hold.Some? then db.bank.holds + [d.hold.value] else db.bank.holds
      case FinalizeJob(h, _) =>
        if d.hold.Some? && h < |db.bank.holds| then db.bank.holds[h := d.hold.value] else db.bank.holds
      case ReleaseJob(h, _) =>
        if d.hold.Some? && h < |db.bank.holds| then db.bank.holds[h := d.hold.value] else db.bank.holds
      case _ => db.bank.holds;
    var purchases := match job
      case CompleteJob(p, _) =>
        if d.purchase.Some? && p < |db.purchases| then db.purchases[p := d.purchase.value] else db.purchases
      case _ => db.purchases;
    Tables(
      Bank(db.bank.wallets[t := d.wallet], holds,
           if d.entry.Some? then db.bank.ledger + [d.entry.value] else db.bank.ledger),
      purchases, db.stale)
  }

  datatype Act =
    | Begin(id: nat, job: Job)
    | Lock(id: nat)
    | ReadRow(id: nat)
    | Peek(id: nat)
    | ReadWallet(id: nat)
    | WriteNext(id: nat)
    | Commit(id: nat)
    | Abort(id: nat)
    | Run(stmt: Statement)

  function At(s: Fine, id: nat, phase: Phase): Fine
    requires id in s.txs
  {
    s.(txs := s.txs[id := s.txs[id].(phase := phase)])
  }

  /** The transaction is over: its locks go. */
  function End(s: Fine, id: nat): Fine {
    s.(txs := s.txs - {id}, locks := map r | r in s.locks && s.locks[r] != id :: s.locks[r])
  }

  /** A statement waits for the row it updates. */
  predicate Free(s: Fine, stmt: Statement) {
    match stmt
    case CreateWallet(t) => WalletRow(t) !in s.locks
    case UpdateSettings(t, _, _) => WalletRow(t) !in s.locks && t in s.db.bank.wallets
    case InsertPurchase(t, _, _, _) => t in s.db.bank.wallets
    case SeePurchasePending(_, status) => status == Cancelled || status == Rejected
    case WriteSeenStatus(k) => k < |s.db.stale| && PurchaseRow(s.db.stale[k].purchase) !in s.locks
    case TimeOut(p) => PurchaseRow(p) !in s.locks
    case WriteRefunded(p) => PurchaseRow(p) !in s.locks && p < |s.db.purchases| && s.db.purchases[p].paidIntent
  }

  /** SELECT ... FOR UPDATE, or the insert of a wallet that was missing. Inserting one that has
      appeared since the peek violates uniqueness, and the transaction is rolled back. */
  function LockStep(s: Fine, id: nat): Fine
    requires id in s.txs
  {
    var tx := s.txs[id];
    if Wanted(tx).None? || Wanted(tx).value in s.locks then s
    else
      var locked := s.(locks := s.locks[Wanted(tx).value := id]);
      match tx.phase
      case Begun => At(locked, id, RowLocked)
      case RowRead(row) => At(locked, id, WalletLocked(row))
      case Peeked(row, missing) =>
        if missing && Owner(tx.job, row) in s.db.bank.wallets then End(s, id) else At(locked, id, WalletLocked(row))
      case _ => s
  }

  /** Read the locked reservation or purchase, and stop unless its status allows the job. */
  function ReadStep(s: Fine, id: nat): Fine
    requires id in s.txs
  {
    var tx := s.txs[id];
    if !tx.phase.RowLocked? then s
    else match ReadFirst(s.db, tx.job)
      case None => End(s, id)
      case Some(row) => At(s, id, RowRead(row))
  }

  /** `lockWalletByTenant` first looks whether there is a wallet. */
  function PeekStep(s: Fine, id: nat): Fine
    requires id in s.txs
  {
    var tx := s.txs[id];
    if !ByTenant(tx.job) then s
    else match tx.phase
      case Begun =>
        if FirstRow(tx.job).Some? then s
        else At(s, id, Peeked(Nothing, Owner(tx.job, Nothing) !in s.db.bank.wallets))
      case RowRead(row) => At(s, id, Peeked(row, Owner(tx.job, row) !in s.db.bank.wallets))
      case _ => s
  }

  /** Read the locked wallet. */
  function ReadWalletStep(s: Fine, id: nat): Fine
    requires id in s.txs
  {
    var tx := s.txs[id];
    if !tx.phase.WalletLocked? then s
    else
      var seen := tx.phase.row.(wallet := WalletOf(s.db.bank, Owner(tx.job, tx.phase.row)));
      At(s, id, Writing(seen, seen, 0))
  }

  function WriteStep(s: Fine, id: nat): Fine
    requires id in s.txs
  {
    var tx := s.txs[id];
    match tx.phase
    case Writing(seen, draft, done) =>
      if done >= WriteCount(tx.job) then s
      else (match Write(tx.job, draft, done)
            case None => End(s, id)
            case Some(d) => At(s, id, Writing(seen, d, done + 1)))
    case _ => s
  }

  function CommitStep(s: Fine, id: nat): Fine
    requires id in s.txs
  {
    var tx := s.txs[id];
    if !tx.phase.Writing? || tx.phase.done != WriteCount(tx.job) then s
    else End(s, id).(
      db := Install(s.db, tx.job, Owner(tx.job, tx.phase.seen), tx.phase.draft),
      history := s.history + [Committed(tx.job)])
  }

  /** One step; an act that is not enabled leaves the state as it is. */
  function FineStep(s: Fine, act: Act): Fine {
    match act
    case Begin(id, job) => if id !in s.txs && Legal(job) then s.(txs := s.txs[id := Tx(job, Begun)]) else s
    case Lock(id) => if id in s.txs then LockStep(s, id) else s
    case ReadRow(id) => if id in s.txs then ReadStep(s, id) else s
    case Peek(id) => if id in s.txs then PeekStep(s, id) else s
    case ReadWallet(id) => if id in s.txs then ReadWalletStep(s, id) else s
    case WriteNext(id) => if id in s.txs then WriteStep(s, id) else s
    case Commit(id) => if id in s.txs then CommitStep(s, id) else s
    case Abort(id) => End(s, id)
    case Run(stmt) =>
      if Free(s, stmt) then s.(db := Execute(s.db, stmt), history := s.history + [Executed(stmt)]) else s
  }

  function FineRun(acts: seq<Act>): Fine {
    if acts == [] then Fine(Tables(Empty, [], []), map[], map[], [])
    else FineStep(FineRun(acts[..|acts| - 1]), acts[|acts| - 1])
  }

  // ---- what every interleaving keeps

  /** The private copies after k writes. */
  function Drafted(job: Job, seen: Draft, k: nat): Option<Draft> {
    if k == 0 then Some(seen)
    else match Drafted(job, seen, k - 1)
      case None => None
      case Some(d) => Write(job, d, k - 1)
  }

  predicate LockedBy(locks: map<Row, nat>, r: Row, id: nat) { r in locks && locks[r] == id }

  predicate Holds(txs: map<nat, Tx>, id: nat, r: Row) { id in txs && Owns(txs[id], r) }

  /** The lock table says who holds what; so a row has at most one holder. */
  ghost predicate LocksAgree(s: Fine) {
    forall id, r :: LockedBy(s.locks, r, id) <==> Holds(s.txs, id, r)
  }

  /** What a transaction has read under its locks is still what is committed. */
  ghost predicate CopyAgrees(db: Tables, tx: Tx) {
    && Legal(tx.job)
    && match tx.phase
       case Begun => true
       case RowLocked => FirstRow(tx.job).Some?
       case RowRead(row) => FirstRow(tx.job).Some? && ReadFirst(db, tx.job) == Some(row)
       case Peeked(row, missing) =>
         ByTenant(tx.job) && ReadFirst(db, tx.job) == Some(row) && (!missing ==> Owner(tx.job, row) in db.bank.wallets)
       case WalletLocked(row) => ReadFirst(db, tx.job) == Some(row)
       case Writing(seen, draft, done) =>
         && ReadFirst(db, tx.job) == Some(seen.(wallet := NewWallet))
         && seen.wallet == WalletOf(db.bank, Owner(tx.job, seen))
         && done <= WriteCount(tx.job) && Drafted(tx.job, seen, done) == Some(draft)
  }

  ghost predicate CopiesAgree(s: Fine) { forall id :: id in s.txs ==> CopyAgrees(s.db, s.txs[id]) }

  function Replay(db: Tables, e: Event): Tables {
    match e
    case Committed(job) => if WellFormed(db.bank) then Kept(db, Atomic(db, job)) else db
    case Executed(stmt) => Execute(db, stmt)
  }

  /** The events one after the other, each in a single step. */
  function Serial(history: seq<Event>): Tables {
    if history == [] then Tables(Empty, [], [])
    else Replay(Serial(history[..|history| - 1]), history[|history| - 1])
  }

  ghost predicate Booked(db: Tables) { Inv(db.bank) && PurchaseInv(db) }

  ghost predicate FineInv(s: Fine) {
    LocksAgree(s) && CopiesAgree(s) && s.db == Serial(s.history) && Booked(s.db)
  }

  // ---- rows nobody else touches

  predicate Untouched(db: Tables, db': Tables, r: Row) {
    match r
    case WalletRow(t) => WalletOf(db'.bank, t) == WalletOf(db.bank, t)
    case HoldRow(h) => h < |db.bank.holds| ==> h < |db'.bank.holds| && db'.bank.holds[h] == db.bank.holds[h]
    case PurchaseRow(p) => p < |db.purchases| ==> p < |db'.purchases| && db'.purchases[p] == db.purchases[p]
  }

  predicate WalletsStay(db: Tables, db': Tables) { db.bank.wallets.Keys <= db'.bank.wallets.Keys }

  lemma CopyStable(db: Tables, db': Tables, tx: Tx)
    requires CopyAgrees(db, tx) && WalletsStay(db, db')
    requires forall r :: Owns(tx, r) ==> Untouched(db, db', r)
    ensures CopyAgrees(db', tx)
  {
    if !tx.phase.Begun? && FirstRow(tx.job).Some? {
      assert Owns(tx, FirstRow(tx.job).value);
    }
    if tx.phase.Writing? {
      assert Owns(tx, WalletRow(Owner(tx.job, tx.phase.seen)));
    }
  }

  lemma InstallTouchesOwnRows(db: Tables, tx: Tx, r: Row)
    requires tx.phase.Writing? && !Owns(tx, r)
    ensures var db' := Install(db, tx.job, Owner(tx.job, tx.phase.seen), tx.phase.draft);
      Untouched(db, db', r) && WalletsStay(db, db')
  {}

  lemma StatementTouchesFreeRows(s: Fine, stmt: Statement, r: Row)
    requires Free(s, stmt) && r in s.locks
    ensures Untouched(s.db, Execute(s.db, stmt), r) && WalletsStay(s.db, Execute(s.db, stmt))
  {}

  // ---- a commit is the job done at once

  function Then(job: Job, d: Option<Draft>, k: nat): Option<Draft> {
    match d case None => None case Some(d) => Write(job, d, k)
  }

  lemma FourWrites(job: Job, seen: Draft)
    ensures Drafted(job, seen, 1) == Write(job, seen, 0)
    ensures Drafted(job, seen, 2) == Then(job, Drafted(job, seen, 1), 1)
    ensures Drafted(job, seen, 3) == Then(job, Drafted(job, seen, 2), 2)
    ensures Drafted(job, seen, 4) == Then(job, Drafted(job, seen, 3), 3)
  {}

  /** Freeing the hold and charging the wallet are two updates of one row. */
  lemma FinalizeCommits(db: Tables, tx: Tx)
    requires CopyAgrees(db, tx) && tx.phase.Writing? && tx.phase.done == WriteCount(tx.job) && WellFormed(db.bank)
    requires tx.job.FinalizeJob?
    ensures Atomic(db, tx.job) == Success(Install(db, tx.job, Owner(tx.job, tx.phase.seen), tx.phase.draft))
  {
    var job, seen, b := tx.job, tx.phase.seen, db.bank;
    var h, charge := job.hold, job.charge;
    FourWrites(job, seen);
    assert b.holds[h] in b.holds;
    assert Drafted(job, seen, 1).Some? && Drafted(job, seen, 2).Some?;
    if charge != 0.0 {
      assert Drafted(job, seen, 3).Some? && Drafted(job, seen, 4) == Some(tx.phase.draft);
      var t, freed := b.holds[h].tenant, Freed(b, h, charge);
      var w := Unreserved(b.wallets[t], b.holds[h]);
      assert b.wallets[t := w][t := Charged(w, UsageCharge, -charge)]
          == b.wallets[t := Charged(w, UsageCharge, -charge)];
      assert Finalize(b, h, charge) == Post(freed, t, UsageCharge, -charge, ForHold(h), true);
    }
  }

  lemma CommitIsAtomic(db: Tables, tx: Tx)
    requires CopyAgrees(db, tx) && tx.phase.Writing? && tx.phase.done == WriteCount(tx.job) && WellFormed(db.bank)
    ensures Atomic(db, tx.job) == Success(Install(db, tx.job, Owner(tx.job, tx.phase.seen), tx.phase.draft))
  {
    var job, seen := tx.job, tx.phase.seen;
    FourWrites(job, seen);
    match job
    case PostJob(_, _, _, _, _) => assert Drafted(job, seen, 1).Some?;
    case ReserveJob(_, _, _) => assert Drafted(job, seen, 1).Some?;
    case FinalizeJob(_, _) => FinalizeCommits(db, tx);
    case ReleaseJob(h, _) =>
      assert db.bank.holds[h] in db.bank.holds;
      assert Drafted(job, seen, 1).Some?;
    case CompleteJob(_, _) => assert Drafted(job, seen, 1).Some? && Drafted(job, seen, 2).Some?;
  }

  /** A transaction that stops at a row's status or at the ledger stops where the job done at
      once would have been refused, or would have changed nothing. */
  lemma RefusalIsAtomic(db: Tables, tx: Tx)
    requires CopyAgrees(db, tx) && WellFormed(db.bank)
    requires (tx.phase.RowLocked? && ReadFirst(db, tx.job).None?)
      || (tx.phase.Writing? && tx.phase.done < WriteCount(tx.job) && Write(tx.job, tx.phase.draft, tx.phase.done).None?)
    ensures Kept(db, Atomic(db, tx.job)) == db
  {
    if tx.phase.Writing? { FourWrites(tx.job, tx.phase.seen); }
  }

  // ---- one step

  /** A step of one transaction that leaves the others' locks alone. */
  lemma LocksMove(s: Fine, s': Fine, id: nat)
    requires LocksAgree(s)
    requires forall other :: other != id ==> (other in s'.txs <==> other in s.txs)
    requires forall other :: other != id && other in s.txs ==> s'.txs[other] == s.txs[other]
    requires forall other, r :: other != id ==> (LockedBy(s'.locks, r, other) <==> LockedBy(s.locks, r, other))
    requires forall r :: LockedBy(s'.locks, r, id) <==> Holds(s'.txs, id, r)
    ensures LocksAgree(s')
  {
    hide Owns;
    forall other, r ensures LockedBy(s'.locks, r, other) <==> Holds(s'.txs, other, r) {
      assert LockedBy(s.locks, r, other) <==> Holds(s.txs, other, r);
    }
  }

  lemma AtKeeps(s: Fine, id: nat, phase: Phase)
    requires FineInv(s) && id in s.txs && CopyAgrees(s.db, s.txs[id].(phase := phase))
    requires forall r :: Owns(s.txs[id].(phase := phase), r) <==> Owns(s.txs[id], r)
    ensures FineInv(At(s, id, phase))
  {
    hide Owns, CopyAgrees, Booked, Serial;
    forall r ensures LockedBy(s.locks, r, id) <==> Holds(At(s, id, phase).txs, id, r) {
      assert LockedBy(s.locks, r, id) <==> Holds(s.txs, id, r);
    }
    LocksMove(s, At(s, id, phase), id);
  }

  lemma LockedAtKeeps(s: Fine, id: nat, r: Row, phase: Phase)
    requires FineInv(s) && id in s.txs && r !in s.locks && CopyAgrees(s.db, s.txs[id].(phase := phase))
    requires forall q :: Owns(s.txs[id].(phase := phase), q) <==> (Owns(s.txs[id], q) || q == r)
    ensures FineInv(At(s.(locks := s.locks[r := id]), id, phase))
  {
    hide Owns, CopyAgrees, Booked, Serial;
    var s' := At(s.(locks := s.locks[r := id]), id, phase);
    forall q ensures LockedBy(s'.locks, q, id) <==> Holds(s'.txs, id, q) {
      assert LockedBy(s.locks, q, id) <==> Holds(s.txs, id, q);
    }
    LocksMove(s, s', id);
  }

  lemma EndKeeps(s: Fine, id: nat)
    requires FineInv(s)
    ensures FineInv(End(s, id))
  {
    hide Owns, CopyAgrees, Booked, Serial;
    LocksMove(s, End(s, id), id);
  }

  /** The phase a transaction enters once it has the row it wanted. */
  function Got(tx: Tx): Phase
    requires Wanted(tx).Some?
  {
    match tx.phase
    case Begun => RowLocked
    case RowRead(row) => WalletLocked(row)
    case Peeked(row, _) => WalletLocked(row)
  }

  lemma GotAgrees(db: Tables, tx: Tx)
    requires CopyAgrees(db, tx) && Wanted(tx).Some?
    ensures CopyAgrees(db, tx.(phase := Got(tx)))
    ensures forall q :: Owns(tx.(phase := Got(tx)), q) <==> (Owns(tx, q) || q == Wanted(tx).value)
  {
    hide ReadFirst;
  }

  lemma LockStepKeeps(s: Fine, id: nat)
    requires FineInv(s) && id in s.txs
    ensures FineInv(LockStep(s, id))
  {
    hide CopyAgrees, Owns, Booked, Serial;
    EndKeeps(s, id);
    var tx := s.txs[id];
    if Wanted(tx).Some? && Wanted(tx).value !in s.locks {
      GotAgrees(s.db, tx);
      LockedAtKeeps(s, id, Wanted(tx).value, Got(tx));
    }
  }

  lemma CopyOf(s: Fine, id: nat)
    requires FineInv(s) && id in s.txs
    ensures CopyAgrees(s.db, s.txs[id])
  {}

  lemma ReadStepKeeps(s: Fine, id: nat)
    requires FineInv(s) && id in s.txs
    ensures FineInv(ReadStep(s, id))
  {
    hide FineInv, ReadFirst;
    var tx := s.txs[id];
    EndKeeps(s, id);
    CopyOf(s, id);
    if tx.phase.RowLocked? && ReadFirst(s.db, tx.job).Some? {
      AtKeeps(s, id, RowRead(ReadFirst(s.db, tx.job).value));
    }
  }

  lemma PeekStepKeeps(s: Fine, id: nat)
    requires FineInv(s) && id in s.txs
    ensures FineInv(PeekStep(s, id))
  {
    hide FineInv;
    var tx := s.txs[id];
    CopyOf(s, id);
    if ByTenant(tx.job) {
      match tx.phase
      case Begun =>
        if FirstRow(tx.job).None? { AtKeeps(s, id, Peeked(Nothing, Owner(tx.job, Nothing) !in s.db.bank.wallets)); }
      case RowRead(row) => AtKeeps(s, id, Peeked(row, Owner(tx.job, row) !in s.db.bank.wallets));
      case _ =>
    }
  }

  /** What ReadFirst hands out has no wallet yet. */
  lemma FirstHasNoWallet(db: Tables, job: Job)
    ensures ReadFirst(db, job).Some? ==> ReadFirst(db, job).value.wallet == NewWallet
  {}

  lemma ReadWalletStepKeeps(s: Fine, id: nat)
    requires FineInv(s) && id in s.txs
    ensures FineInv(ReadWalletStep(s, id))
  {
    hide FineInv, ReadFirst;
    var tx := s.txs[id];
    CopyOf(s, id);
    FirstHasNoWallet(s.db, tx.job);
    match tx.phase
    case WalletLocked(row) =>
      var seen := row.(wallet := WalletOf(s.db.bank, Owner(tx.job, row)));
      assert seen.(wallet := NewWallet) == row;
      AtKeeps(s, id, Writing(seen, seen, 0));
    case _ =>
  }

  lemma NextWriteAgrees(db: Tables, tx: Tx, d: Draft)
    requires CopyAgrees(db, tx) && tx.phase.Writing? && tx.phase.done < WriteCount(tx.job)
    requires Write(tx.job, tx.phase.draft, tx.phase.done) == Some(d)
    ensures CopyAgrees(db, tx.(phase := Writing(tx.phase.seen, d, tx.phase.done + 1)))
  {
    hide Write, ReadFirst, WriteCount;
  }

  lemma WriteStepKeeps(s: Fine, id: nat)
    requires FineInv(s) && id in s.txs
    ensures FineInv(WriteStep(s, id))
  {
    hide Write, WriteCount, CopyAgrees, Booked, Serial;
    EndKeeps(s, id);
    var tx := s.txs[id];
    match tx.phase
    case Writing(seen, draft, done) =>
      if done < WriteCount(tx.job) && Write(tx.job, draft, done).Some? {
        NextWriteAgrees(s.db, tx, Write(tx.job, draft, done).value);
        AtKeeps(s, id, Writing(seen, Write(tx.job, draft, done).value, done + 1));
      }
    case _ =>
  }

  // ---- steps that change what is committed

  lemma HoldsOwned(db: Tables)
    requires Booked(db)
    ensures WellFormed(db.bank)
  {}

  lemma PostJobKeeps(db: Tables, job: Job)
    requires Booked(db) && Legal(job) && job.PostJob? && WellFormed(db.bank) && Atomic(db, job).Success?
    ensures Booked(Atomic(db, job).value)
  {
    hide Inv, PurchaseInv;
    var b := db.bank;
    PostKeepsInv(b, job.t, job.kind, job.amount, job.origin, job.allowNegative);
    OtherPostKeeps(db, Post(b, job.t, job.kind, job.amount, job.origin, job.allowNegative).value,
                   EntryFor(job.t, WalletOf(b, job.t), job.kind, job.amount, job.origin));
  }

  lemma FinalizeJobKeeps(db: Tables, job: Job)
    requires Booked(db) && job.FinalizeJob? && WellFormed(db.bank) && Atomic(db, job).Success?
    ensures Booked(Atomic(db, job).value)
  {
    var b, h, charge := db.bank, job.hold, job.charge;
    assert b.holds[h] in b.holds;
    FinalizeKeepsInv(b, h, charge);
    if charge != 0.0 {
      hide Inv, PurchaseInv;
      var t := b.holds[h].tenant;
      OtherPostKeeps(db, Finalize(b, h, charge).value,
                     EntryFor(t, WalletOf(Freed(b, h, charge), t), UsageCharge, -charge, ForHold(h)));
    }
  }

  /** A legal job done at once keeps the books. */
  lemma AtomicKeeps(db: Tables, job: Job)
    requires Booked(db) && Legal(job) && WellFormed(db.bank)
    ensures Booked(Kept(db, Atomic(db, job)))
  {
    hide Inv, RowBooked, EntryBacked;
    if Atomic(db, job).Success? {
      match job
      case PostJob(_, _, _, _, _) => PostJobKeeps(db, job);
      case ReserveJob(t, amount, expiresAt) => ReserveKeepsInv(db.bank, t, amount, expiresAt);
      case FinalizeJob(_, _) => FinalizeJobKeeps(db, job);
      case ReleaseJob(h, status) => ReleaseKeepsInv(db.bank, h, status);
      case CompleteJob(p, intent) => CompleteKeeps(db, p, intent);
    }
  }

  lemma StatementKeeps(s: Fine, stmt: Statement)
    requires Booked(s.db) && Free(s, stmt)
    ensures Booked(Execute(s.db, stmt))
  {
    match stmt
    case CreateWallet(t) => TouchKeepsInv(s.db.bank, t);
    case UpdateSettings(t, status, threshold) => SettingsKeepsInv(s.db.bank, t, status, threshold);
    case InsertPurchase(t, rail, amount, now) => SubmitKeeps(s.db, t, rail, amount, now);
    case _ => PurchaseStatementKeeps(s, stmt);
  }

  lemma PurchaseStatementKeeps(s: Fine, stmt: Statement)
    requires Booked(s.db) && Free(s, stmt)
    requires stmt.SeePurchasePending? || stmt.WriteSeenStatus? || stmt.TimeOut? || stmt.WriteRefunded?
    ensures Booked(Execute(s.db, stmt))
  {
    hide Inv;
    var db' := Execute(s.db, stmt);
    if stmt.WriteSeenStatus? { assert s.db.stale[stmt.write] in s.db.stale; }
    forall p | 0 <= p < |db'.purchases| ensures RowBooked(db'.purchases[p], EntriesFor(db'.bank.ledger, p)) {
      assert RowBooked(s.db.purchases[p], EntriesFor(s.db.bank.ledger, p));
    }
  }

  lemma SerialAppend(history: seq<Event>, e: Event)
    ensures Serial(history + [e]) == Replay(Serial(history), e)
  {
    assert (history + [e])[..|history|] == history;
  }

  lemma CommitStepKeeps(s: Fine, id: nat)
    requires FineInv(s) && id in s.txs
    ensures FineInv(CommitStep(s, id))
  {
    var tx := s.txs[id];
    if tx.phase.Writing? && tx.phase.done == WriteCount(tx.job) {
      hide CommitStep, CopiesAgree, Booked, Serial, LocksAgree;
      CommittedState(s, id);
      CommittedCopies(s, id);
      CommittedLocks(s, id);
    }
  }

  lemma CommittedLocks(s: Fine, id: nat)
    requires FineInv(s) && id in s.txs
    requires s.txs[id].phase.Writing? && s.txs[id].phase.done == WriteCount(s.txs[id].job)
    ensures LocksAgree(CommitStep(s, id))
  {
    hide Install, WriteCount, CopiesAgree, Booked, Serial, Holds, LockedBy;
    EndKeeps(s, id);
  }

  lemma CommittedCopies(s: Fine, id: nat)
    requires FineInv(s) && id in s.txs
    requires s.txs[id].phase.Writing? && s.txs[id].phase.done == WriteCount(s.txs[id].job)
    ensures CopiesAgree(CommitStep(s, id))
  {
    hide Install, WriteCount, CopyAgrees, Booked, Serial, Owns, Owner, Holds;
    var s' := CommitStep(s, id);
    forall other | other in s'.txs ensures CopyAgrees(s'.db, s'.txs[other]) {
      OthersKeepTheirRows(s, id, other);
    }
  }

  lemma CommittedState(s: Fine, id: nat)
    requires FineInv(s) && id in s.txs
    requires s.txs[id].phase.Writing? && s.txs[id].phase.done == WriteCount(s.txs[id].job)
    ensures CommitStep(s, id).db == Serial(CommitStep(s, id).history) && Booked(CommitStep(s, id).db)
  {
    var tx := s.txs[id];
    HoldsOwned(s.db);
    CommitIsAtomic(s.db, tx);
    AtomicKeeps(s.db, tx.job);
    SerialAppend(s.history, Committed(tx.job));
  }

  lemma RowsAreExclusive(s: Fine, id: nat, other: nat, r: Row)
    requires LocksAgree(s) && id in s.txs && other in s.txs && other != id && Owns(s.txs[other], r)
    ensures !Owns(s.txs[id], r)
  {
    assert Holds(s.txs, other, r) <==> LockedBy(s.locks, r, other);
    assert Holds(s.txs, id, r) <==> LockedBy(s.locks, r, id);
  }

  lemma OthersKeepTheirRows(s: Fine, id: nat, other: nat)
    requires LocksAgree(s) && CopiesAgree(s) && id in s.txs && other in s.txs && other != id
    requires s.txs[id].phase.Writing?
    ensures var tx := s.txs[id];
      CopyAgrees(Install(s.db, tx.job, Owner(tx.job, tx.phase.seen), tx.phase.draft), s.txs[other])
  {
    var tx := s.txs[id];
    var db' := Install(s.db, tx.job, Owner(tx.job, tx.phase.seen), tx.phase.draft);
    hide Install, CopyAgrees, Owns, Owner, Untouched;
    assert WalletsStay(s.db, db') by { InstallKeepsWallets(s.db, tx); }
    forall r | Owns(s.txs[other], r) ensures Untouched(s.db, db', r) {
      RowsAreExclusive(s, id, other, r);
      InstallTouchesOwnRows(s.db, tx, r);
    }
    CopyStable(s.db, db', s.txs[other]);
  }

  lemma InstallKeepsWallets(db: Tables, tx: Tx)
    requires tx.phase.Writing?
    ensures WalletsStay(db, Install(db, tx.job, Owner(tx.job, tx.phase.seen), tx.phase.draft))
  {}

  lemma RunKeepsFine(s: Fine, stmt: Statement)
    requires FineInv(s)
    ensures FineInv(FineStep(s, Run(stmt)))
  {
    hide Execute, CopyAgrees, Booked, Serial, Owns, Free;
    if Free(s, stmt) {
      var s' := FineStep(s, Run(stmt));
      StatementKeeps(s, stmt);
      SerialAppend(s.history, Executed(stmt));
      assert s'.db == Serial(s'.history);
      forall id | id in s'.txs ensures CopyAgrees(s'.db, s'.txs[id]) { CopiesSurvive(s, stmt, id); }
    }
  }

  lemma CopiesSurvive(s: Fine, stmt: Statement, id: nat)
    requires LocksAgree(s) && CopiesAgree(s) && Free(s, stmt) && id in s.txs
    ensures CopyAgrees(Execute(s.db, stmt), s.txs[id])
  {
    hide Execute, CopyAgrees, Owns, Untouched, Free;
    forall r | Owns(s.txs[id], r) ensures Untouched(s.db, Execute(s.db, stmt), r) {
      assert Holds(s.txs, id, r) <==> LockedBy(s.locks, r, id);
      StatementTouchesFreeRows(s, stmt, r);
    }
    StatementKeepsWallets(s.db, stmt);
    CopyStable(s.db, Execute(s.db, stmt), s.txs[id]);
  }

  lemma StatementKeepsWallets(db: Tables, stmt: Statement)
    ensures WalletsStay(db, Execute(db, stmt))
  {}

  lemma BeginKeeps(s: Fine, id: nat, job: Job)
    requires FineInv(s) && id !in s.txs && Legal(job)
    ensures FineInv(s.(txs := s.txs[id := Tx(job, Begun)]))
  {
    hide Booked, Serial;
    var s' := s.(txs := s.txs[id := Tx(job, Begun)]);
    forall r ensures LockedBy(s'.locks, r, id) <==> Holds(s'.txs, id, r) {
      assert LockedBy(s.locks, r, id) <==> Holds(s.txs, id, r);
    }
    LocksMove(s, s', id);
  }

  lemma FineStepKeeps(s: Fine, act: Act)
    requires FineInv(s)
    ensures FineInv(FineStep(s, act))
  {
    hide LocksAgree, CopyAgrees, Owns, Booked, Serial, FineInv;
    hide LockStep, ReadStep, PeekStep, ReadWalletStep, WriteStep, CommitStep;
    match act
    case Begin(id, job) => if id !in s.txs && Legal(job) { BeginKeeps(s, id, job); }
    case Lock(id) => if id in s.txs { LockStepKeeps(s, id); }
    case ReadRow(id) => if id in s.txs { ReadStepKeeps(s, id); }
    case Peek(id) => if id in s.txs { PeekStepKeeps(s, id); }
    case ReadWallet(id) => if id in s.txs { ReadWalletStepKeeps(s, id); }
    case WriteNext(id) => if id in s.txs { WriteStepKeeps(s, id); }
    case Commit(id) => if id in s.txs { CommitStepKeeps(s, id); }
    case Abort(id) => EndKeeps(s, id);
    case Run(stmt) => RunKeepsFine(s, stmt);
  }

  lemma NothingBooked()
    ensures Booked(Tables(Empty, [], []))
  {}

  lemma StartKeeps()
    ensures FineInv(FineRun([]))
  {
    NothingBooked();
    hide Booked;
  }

  lemma {:induction false} FineRunKeeps(acts: seq<Act>)
    ensures FineInv(FineRun(acts))
  {
    hide FineInv, FineStep;
    if acts == [] {
      StartKeeps();
    } else {
      FineRunKeeps(acts[..|acts| - 1]);
      FineStepKeeps(FineRun(acts[..|acts| - 1]), acts[|acts| - 1]);
    }
  }

  // ---- no lost update, no dirty read, no deadlock

  /** However lock, read, write and commit steps interleave, what is committed is what the same
      transactions and statements leave when each is done at once, in commit order. */
  lemma InterleavingIsSerial(acts: seq<Act>)
    ensures FineRun(acts).db == Serial(FineRun(acts).history)
  {
    FineRunKeeps(acts);
  }

  /** So the committed books are in order under every interleaving: an unbroken chain per wallet
      that ends on the balance, the balance the sum of amounts and rounding drifts, the reserved
      column the active holds, and one PURCHASE entry per completed purchase. */
  lemma BooksUnderInterleaving(acts: seq<Act>, t: TenantId)
    ensures var db := FineRun(acts).db;
      && Inv(db.bank) && PurchaseInv(db) && Chained(db.bank.ledger)
      && WalletOf(db.bank, t).balance == LastAfter(db.bank.ledger, t)
      && WalletOf(db.bank, t).balance == Total(db.bank.ledger, t, Amount) + Total(db.bank.ledger, t, Drift)
      && WalletOf(db.bank, t).reserved == HoldTotal(db.bank.holds, t, Reserved)
  {
    FineRunKeeps(acts);
    WalletOfBalances(FineRun(acts).db.bank, t);
    LedgerLaw.BalanceIsAmountsAndDrift(FineRun(acts).db.bank, t);
  }

  ghost predicate WaitsFor(s: Fine, a: nat, b: nat) {
    && a in s.txs && Wanted(s.txs[a]).Some?
    && Wanted(s.txs[a]).value in s.locks && s.locks[Wanted(s.txs[a]).value] == b
  }

  lemma WaitedForHolds(s: Fine, a: nat, b: nat)
    requires LocksAgree(s) && WaitsFor(s, a, b)
    ensures b in s.txs && Owns(s.txs[b], Wanted(s.txs[a]).value)
  {
    assert LockedBy(s.locks, Wanted(s.txs[a]).value, b) <==> Holds(s.txs, b, Wanted(s.txs[a]).value);
  }

  /** Reservation or purchase row first, a single wallet last: whoever is waited for by a waiting
      transaction that is itself waited for does not wait. */
  lemma WaitsAreShort(s: Fine, a: nat, b: nat, c: nat, d: nat)
    requires LocksAgree(s) && WaitsFor(s, a, b) && WaitsFor(s, b, c)
    ensures !WaitsFor(s, c, d)
  {
    WaitedForHolds(s, a, b);
    WaitedForHolds(s, b, c);
  }

  /** The next place round a cycle of n. */
  function Around(i: nat, n: nat): (j: nat)
    requires i < n
    ensures j < n
  {
    if i + 1 == n then 0 else i + 1
  }

  /** No set of in-flight transactions waits in a cycle. */
  lemma NoDeadlock(acts: seq<Act>, cycle: seq<nat>)
    requires |cycle| > 0
    ensures exists i | 0 <= i < |cycle| :: !WaitsFor(FineRun(acts), cycle[i], cycle[Around(i, |cycle|)])
  {
    hide WaitsFor, FineRun, LocksAgree, CopiesAgree, Booked, Serial;
    FineRunKeeps(acts);
    var s, n := FineRun(acts), |cycle|;
    var i1 := Around(0, n);
    var i2 := Around(i1, n);
    if WaitsFor(s, cycle[0], cycle[i1]) && WaitsFor(s, cycle[i1], cycle[i2]) {
      WaitsAreShort(s, cycle[0], cycle[i1], cycle[i2], cycle[Around(i2, n)]);
      assert !WaitsFor(s, cycle[i2], cycle[Around(i2, n)]);
    }
  }
}
