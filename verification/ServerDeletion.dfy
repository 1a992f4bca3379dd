/** Deletion of a virtual server. Observe looks under the external name, Delete under
    the deterministic id, so the two must agree for deletion to finish. */
module ServerDeletion {
  import opened Wrappers
  import opened Remote
  import opened Managed
  import opened ServerClient
  import opened ServerController

  /** What one reconcile meets. */
  datatype Round = Round(kube: Kube, net: ServerNet)

  /** A reconcile of a virtual server marked deleted, and whether it drops the finalizer. */
  function DeletionRound(cr: ServerCr, id: string, store: Store, r: Round): (Store, bool)
  {
    match Decide(cr.deleted, AfterObserve(cr, id, "", store, r.kube, r.net).result)
    case CallDelete => (AfterDelete(cr, id, store, r.net).store, false)
    case DropFinalizer => (store, true)
    case _ => (store, false)
  }

  /** Reconciles until the finalizer is dropped, at most once for each round. */
  function DeletionRounds(cr: ServerCr, id: string, store: Store, rounds: seq<Round>): (Store, bool)
    decreases |rounds|
  {
    if rounds == [] then (store, false) else
      var (next, finished) := DeletionRound(cr, id, store, rounds[0]);
      if finished then (next, true) else DeletionRounds(cr, id, next, rounds[1..])
  }

  /** How many of the rounds meet no fault. */
  function Clean(rounds: seq<Round>): nat
  {
    if rounds == [] then 0 else (if rounds[0].net.Faultless() then 1 else 0) + Clean(rounds[1..])
  }

  /** Whatever the cluster holds and whatever faults deletion meets: it has finished after
      two faultless reconciles exactly when the external name is unset, is the
      deterministic id, or names no server, and otherwise never. It finishes only when
      nothing is found. The record at the deterministic id goes in the first faultless
      reconcile, unless Observe looks elsewhere and finds nothing; every other record
      stays. */
  lemma {:induction false} DeletionFinishesExactly(cr: ServerCr, id: string, store: Store, rounds: seq<Round>)
    requires cr.deleted
    ensures var at := ObservedId(cr, id);
            var (left, finished) := DeletionRounds(cr, id, store, rounds);
            (Clean(rounds) >= 2 || (Clean(rounds) >= 1 && at !in store) ==> (finished <==> at == id || at !in store)) &&
            (finished ==> at !in left && (at == id || at !in store)) &&
            (left == store || left == store - {id}) && (at != id && at !in store ==> left == store) &&
            (Clean(rounds) >= 1 && (at == id || at in store) ==> left == store - {id})
    decreases |rounds|
  {
    if rounds != [] {
      var at := ObservedId(cr, id);
      var (next, finished) := DeletionRound(cr, id, store, rounds[0]);
      assert id !in store ==> store - {id} == store;
      assert (store - {id}) - {id} == store - {id};
      if !finished { DeletionFinishesExactly(cr, id, next, rounds[1..]); }
    }
  }

  /** Reconciles of which two meet no fault let the resource go and leave no record at its
      deterministic id exactly when Observe looks under that id, or neither finds
      anything nor has anything to find. A stray external name that names no server
      lets the resource go while its own record stays. */
  lemma DeletionIsCleanExactly(cr: ServerCr, id: string, store: Store, rounds: seq<Round>)
    requires cr.deleted && Clean(rounds) >= 2
    ensures var at := ObservedId(cr, id);
            var (left, finished) := DeletionRounds(cr, id, store, rounds);
            finished && id !in left <==> at == id || (at !in store && id !in store)
  {
    DeletionFinishesExactly(cr, id, store, rounds);
  }

  /** Delete can be repeated: it succeeds again, and changes nothing more. */
  lemma DeleteIsIdempotent(cr: ServerCr, id: string, store: Store, net: ServerNet, again: ServerNet)
    requires net.Faultless() && again.Faultless()
    ensures var o := AfterDelete(cr, id, store, net);
            AfterDelete(cr, id, o.store, again).store == o.store && AfterDelete(cr, id, o.store, again).result == Ok(())
  {
    assert (store - {id}) - {id} == store - {id};
  }
}
