/** The nightly job as a method on the service's store. */
module DailyReset {
  import Ledger
  import Runs
  import PS = PaymentService

  /** `saves` tells whether the MoneyFlow record could be saved; when it could not,
      the job logs the error and leaves the counter alone. */
  method OffloadAndResetTotalAmount(store: PS.PaymentService, saves: bool)
    requires store.Valid()
    modifies store`daily, store`flows
    ensures if old(store.daily) > 0 && saves
            then store.daily == 0 && store.flows == old(store.flows) + [old(store.daily)]
            else store.daily == old(store.daily) && store.flows == old(store.flows)
    ensures store.payments == old(store.payments) && store.students == old(store.students)
    ensures store.Valid() && store.State() == Runs.OffloadTotal(old(store.State()), saves)
    ensures Ledger.Shortfall(store.State()) == Ledger.Shortfall(old(store.State()))
  {
    ghost var before := store.State();
    var totalAmount := store.daily;
    if totalAmount > 0 {
      if !saves {
        return;
      }
      store.flows := store.flows + [totalAmount];
      store.daily := 0;
    }
    assert store.State() == Runs.OffloadTotal(before, saves);
    Runs.OffloadKeeps(before, saves);
  }
}
