/** The ledger law under interleaving: whatever the order of lock, read, write and commit steps,
    runs that bring only whole amounts keep it for every wallet. */
module LockedLaw {
  import opened Wrappers
  import opened Money
  import opened Bank
  import opened LedgerTotals
  import opened BankInvariant
  import opened LedgerLaw
  import opened Purchases
  import opened LockedTransactions
  import opened WholeAmounts

  predicate BringsWhole(e: Event) {
    match e
    case Committed(PostJob(_, _, amount, _, _)) => IsWhole(amount)
    case Committed(FinalizeJob(_, charge)) => IsWhole(charge)
    case _ => true
  }

  lemma JobKeepsLaw(db: Tables, job: Job)
    requires WellFormed(db.bank) && AllLawful(db.bank) && BringsWhole(Committed(job))
    ensures AllLawful(Kept(db, Atomic(db, job)).bank)
  {
    var b := db.bank;
    hide AllLawful;
    if Atomic(db, job).Success? {
      match job
      case PostJob(t, kind, amount, origin, allowNegative) => WholePostKeeps(b, t, kind, amount, origin, allowNegative);
      case ReserveJob(t, amount, expiresAt) => SameColumns(b, Reserve(b, t, amount, expiresAt).value);
      case FinalizeJob(h, charge) => WholeFinalizeKeeps(b, h, charge);
      case ReleaseJob(h, status) => SameColumns(b, Release(b, h, status).value);
      case CompleteJob(p, intent) => CompleteKeepsLaw(db, p, intent);
    }
  }

  lemma {:induction false} SerialKeepsLaw(history: seq<Event>)
    requires forall e :: e in history ==> BringsWhole(e)
    ensures AllLawful(Serial(history).bank)
  {
    if history != [] {
      var n := |history| - 1;
      var db, e := Serial(history[..n]), history[n];
      assert e in history && forall f :: f in history[..n] ==> f in history;
      SerialKeepsLaw(history[..n]);
      match e
      case Committed(job) => if WellFormed(db.bank) { JobKeepsLaw(db, job); }
      case Executed(stmt) => SameColumns(db.bank, Execute(db, stmt).bank);
    }
  }

  /** In every state of every such interleaving, for committed data: balance === SUM(amount), and
      the balance is totalPurchased - totalConsumed + totalAdjusted + the signed refunds. */
  lemma LawUnderInterleaving(acts: seq<Act>, t: TenantId)
    requires forall e :: e in FineRun(acts).history ==> BringsWhole(e)
    ensures Balanced(FineRun(acts).db.bank, t) && Reconciles(FineRun(acts).db.bank, t)
  {
    FineRunKeeps(acts);
    SerialKeepsLaw(FineRun(acts).history);
    LawfulReconciles(FineRun(acts).db.bank, t);
  }

  /** One more step of a run that has reached s. */
  lemma Onward(acts: seq<Act>, s: Fine, act: Act) returns (acts': seq<Act>)
    requires FineRun(acts) == s
    ensures acts' == acts + [act] && FineRun(acts') == FineStep(s, act)
  {
    acts' := acts + [act];
    assert acts'[..|acts|] == acts;
  }

  /** The steps do get somewhere: a credit to a tenant without a wallet commits, and a second one
      that had found no wallet either is rolled back by its insert. */
  lemma TwoCreditsRace(t: TenantId, amount: real) returns (acts: seq<Act>)
    requires amount > 0.0
    ensures var job, end := PostJob(t, ManualCredit, amount, ByAdmin, false), FineRun(acts);
      && end.history == [Committed(job)] && end.txs == map[] && end.locks == map[]
      && t in end.db.bank.wallets && end.db.bank.wallets[t].balance == Stored(amount) && |end.db.bank.ledger| == 1
  {
    hide FineRun, WriteStep, CommitStep;
    var job := PostJob(t, ManualCredit, amount, ByAdmin, false);
    var empty := Tables(Empty, [], []);
    var looked := Tx(job, Peeked(Nothing, true));
    acts := Start();
    acts := Onward(acts, Fine(empty, map[], map[], []), Begin(0, job));
    acts := Onward(acts, Fine(empty, map[], map[0 := Tx(job, Begun)], []), Begin(1, job));
    acts := Onward(acts, Fine(empty, map[], map[0 := Tx(job, Begun), 1 := Tx(job, Begun)], []), Peek(0));
    acts := Onward(acts, Fine(empty, map[], map[0 := looked, 1 := Tx(job, Begun)], []), Peek(1));
    acts := Onward(acts, Fine(empty, map[], map[0 := looked, 1 := looked], []), Lock(0));
    var locked := map[WalletRow(t) := 0];
    acts := Onward(acts, Fine(empty, locked, map[0 := Tx(job, WalletLocked(Nothing)), 1 := looked], []), ReadWallet(0));
    var w0 := Fine(empty, locked, map[0 := Tx(job, Writing(Nothing, Nothing, 0)), 1 := looked], []);
    acts := Onward(acts, w0, WriteNext(0));
    var draft := Nothing.(entry := Some(EntryFor(t, NewWallet, ManualCredit, amount, ByAdmin)));
    var w1 := Fine(empty, locked, map[0 := Tx(job, Writing(Nothing, draft, 1)), 1 := looked], []);
    FirstWrite(job, w0, w1);
    acts := Onward(acts, w1, WriteNext(0));
    var done := draft.(wallet := Charged(NewWallet, ManualCredit, amount));
    var w2 := Fine(empty, locked, map[0 := Tx(job, Writing(Nothing, done, 2)), 1 := looked], []);
    SecondWrite(job, w1, w2);
    acts := Onward(acts, w2, Commit(0));
    var after := Tables(Bank(map[t := done.wallet], [], [done.entry.value]), [], []);
    var c := Fine(after, map[], map[1 := looked], [Committed(job)]);
    Committing(job, w2, c);
    acts := Onward(acts, c, Lock(1));
    assert FineStep(c, Lock(1)) == Fine(after, map[], map[], [Committed(job)]);
  }

  lemma Start() returns (acts: seq<Act>)
    ensures FineRun(acts) == Fine(Tables(Empty, [], []), map[], map[], [])
  {
    acts := [];
  }

  lemma FirstWrite(job: Job, s: Fine, s': Fine)
    requires job.PostJob? && job.amount > 0.0 && 0 in s.txs && s.txs[0] == Tx(job, Writing(Nothing, Nothing, 0))
    requires s' == At(s, 0, Writing(Nothing,
      Nothing.(entry := Some(EntryFor(job.t, NewWallet, job.kind, job.amount, job.origin))), 1))
    ensures FineStep(s, WriteNext(0)) == s'
  {}

  lemma SecondWrite(job: Job, s: Fine, s': Fine)
    requires job.PostJob? && 0 in s.txs && s.txs[0].job == job && s.txs[0].phase.Writing? && s.txs[0].phase.done == 1
    requires var d := s.txs[0].phase.draft;
      s' == At(s, 0, s.txs[0].phase.(draft := d.(wallet := Charged(d.wallet, job.kind, job.amount)), done := 2))
    ensures FineStep(s, WriteNext(0)) == s'
  {}

  lemma Committing(job: Job, s: Fine, s': Fine)
    requires job.PostJob? && s.txs.Keys == {0, 1} && s.locks == map[WalletRow(job.t) := 0]
    requires s.txs[0].job == job && s.txs[0].phase.Writing? && s.txs[0].phase.done == 2
    requires s.db == Tables(Empty, [], []) && s.txs[0].phase.draft.entry.Some?
    requires var d := s.txs[0].phase.draft;
      s' == Fine(Tables(Bank(map[job.t := d.wallet], [], [d.entry.value]), [], []), map[], map[1 := s.txs[1]],
                 s.history + [Committed(job)])
    ensures FineStep(s, Commit(0)) == s'
  {}
}
