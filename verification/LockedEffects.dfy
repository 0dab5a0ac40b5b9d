/** What each transaction and statement of the interleaved machine does to the committed tables, on the
    columns of the rows it touches. */
module LockedEffects {
  import opened Wrappers
  import opened Bank
  import opened WalletEffects
  import opened Purchases
  import opened PurchaseEffects
  import opened LockedTransactions

  ghost predicate JobEffect(db: Tables, db': Tables, job: Job, refusal: Option<Refusal>)
    requires WellFormed(db.bank)
  {
    && (!job.CompleteJob? ==> db' == db.(bank := db'.bank))
    && match job
       case PostJob(t, kind, amount, origin, allowNegative) =>
         PostEffect(db.bank, db'.bank, t, kind, amount, origin, allowNegative, refusal)
       case ReserveJob(t, amount, expiresAt) => ReserveEffect(db.bank, db'.bank, t, amount, expiresAt, refusal)
       case FinalizeJob(h, charge) => FinalizeEffect(db.bank, db'.bank, h, charge, refusal)
       case ReleaseJob(h, status) => ReleaseEffect(db.bank, db'.bank, h, status, refusal)
       case CompleteJob(p, intent) => Completes(db, db', p, intent, refusal)
  }

  /** A transaction that commits has the effect of its call on the tables as they are then, and one
      that is refused none. */
  lemma JobExactly(db: Tables, job: Job)
    requires WellFormed(db.bank)
    ensures match Atomic(db, job)
      case Success(db') => JobEffect(db, db', job, None)
      case Failure(e) => JobEffect(db, db, job, Some(e))
  {
    match job
    case PostJob(t, kind, amount, origin, allowNegative) =>
      PostExactly(db.bank, t, kind, amount, origin, allowNegative);
      hide Post, PostEffect, WellFormed;
    case ReserveJob(t, amount, expiresAt) =>
      ReserveExactly(db.bank, t, amount, expiresAt);
      hide Reserve, ReserveEffect, WellFormed;
    case FinalizeJob(h, charge) =>
      FinalizeExactly(db.bank, h, charge);
      hide Finalize, FinalizeEffect, WellFormed;
    case ReleaseJob(h, status) =>
      ReleaseExactly(db.bank, h, status);
      hide Release, ReleaseEffect, WellFormed;
    case CompleteJob(p, intent) =>
      CompleteExactly(db, p, intent);
      hide Complete, Completes, WellFormed;
  }
}
