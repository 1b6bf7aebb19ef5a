/**
 * The alert list: transient notifications appended by `show` and removed by id,
 * either explicitly or by a removal that `show` schedules when the alert has a
 * positive duration.
 */
module AlertsStore {

  import opened KeyedLists
  import opened AlertTypes

  /** The duration `show` and its wrappers use when none is given, in milliseconds. */
  const DefaultDuration := 5000

  /** A removal that `show` scheduled: the id it filters out, after `delay` milliseconds. */
  datatype Removal = Removal(id: string, delay: int)

  /** `alerts.filter(a => a.id !== id)`, shared by `remove` and the scheduled removal. */
  function RemovedAlerts(alerts: seq<Alert>, id: string): (r: seq<Alert>)
    ensures NoKey(r, AlertId, id)
    ensures forall a :: a in r <==> a in alerts && a.id != id
    ensures IsSubsequence(r, alerts)
  {
    WithoutMembers(alerts, AlertId, id);
    WithoutKeepsOrder(alerts, AlertId, id);
    Without(alerts, AlertId, id)
  }

  /** Removing twice is removing once, and removing an absent id changes nothing. */
  lemma RemoveIdempotent(alerts: seq<Alert>, id: string)
    ensures RemovedAlerts(RemovedAlerts(alerts, id), id) == RemovedAlerts(alerts, id)
    ensures NoKey(alerts, AlertId, id) ==> RemovedAlerts(alerts, id) == alerts
  {
    WithoutIdempotent(alerts, AlertId, id);
    if NoKey(alerts, AlertId, id) {
      WithoutAbsent(alerts, AlertId, id);
    }
  }

  /** Removing the alert just shown under a fresh id gives back the list from before `show`. */
  lemma RemoveUndoesShow(alerts: seq<Alert>, a: Alert)
    requires NoKey(alerts, AlertId, a.id)
    ensures RemovedAlerts(alerts + [a], a.id) == alerts
  {
    WithoutConcat(alerts, [a], AlertId, a.id);
    WithoutAbsent(alerts, AlertId, a.id);
  }

  /** An alert survives the removal of any other id. */
  lemma RemoveKeepsOthers(alerts: seq<Alert>, a: Alert, id: string)
    requires a in alerts && a.id != id
    ensures a in RemovedAlerts(alerts, id)
  {
  }

  /**
   * The alert store. `alerts` is the list; `pending` holds the removals
   * scheduled and not yet run, which run in any order.
   */
  class AlertStore {
    var alerts: seq<Alert>
    var pending: seq<Removal>

    /** Only a positive duration is ever scheduled. */
    ghost predicate Valid()
      reads this
    {
      forall i | 0 <= i < |pending| :: pending[i].delay > 0
    }

    /** Some scheduled removal still carries the id `id`. */
    ghost predicate IsPending(id: string)
      reads this
    {
      exists j | 0 <= j < |pending| :: pending[j].id == id
    }

    constructor ()
      ensures Valid()
      ensures alerts == [] && pending == []
    {
      alerts := [];
      pending := [];
    }

    /**
     * `show`: append an alert under the fresh id `id` (one that no alert and
     * no scheduled removal carries), created at time `now`,
     * and schedule its removal exactly when `duration > 0`. Returns the id.
     */
    method Show(message: string, id: string, now: int, kind: AlertKind := Default, duration: int := DefaultDuration)
      returns (r: string)
      requires Valid()
      requires NoKey(alerts, AlertId, id)
      requires !IsPending(id)
      modifies this
      ensures Valid()
      ensures r == id
      ensures alerts == old(alerts) + [Alert(id, message, kind, duration, now)]
      ensures pending == if duration > 0 then old(pending) + [Removal(id, duration)] else old(pending)
      ensures duration <= 0 ==> !IsPending(id)
    {
      alerts := alerts + [Alert(id, message, kind, duration, now)];
      if duration > 0 {
        pending := pending + [Removal(id, duration)];
      }
      r := id;
    }

    /** `success`: `show` with kind "success". */
    method ShowSuccess(message: string, id: string, now: int, duration: int := DefaultDuration) returns (r: string)
      requires Valid()
      requires NoKey(alerts, AlertId, id)
      requires !IsPending(id)
      modifies this
      ensures Valid()
      ensures r == id
      ensures alerts == old(alerts) + [Alert(id, message, Success, duration, now)]
      ensures pending == if duration > 0 then old(pending) + [Removal(id, duration)] else old(pending)
    {
      r := Show(message, id, now, Success, duration);
    }

    /** `error`: `show` with kind "error". */
    method ShowError(message: string, id: string, now: int, duration: int := DefaultDuration) returns (r: string)
      requires Valid()
      requires NoKey(alerts, AlertId, id)
      requires !IsPending(id)
      modifies this
      ensures Valid()
      ensures r == id
      ensures alerts == old(alerts) + [Alert(id, message, Error, duration, now)]
      ensures pending == if duration > 0 then old(pending) + [Removal(id, duration)] else old(pending)
    {
      r := Show(message, id, now, Error, duration);
    }

    /** `info`: `show` with kind "default". */
    method ShowInfo(message: string, id: string, now: int, duration: int := DefaultDuration) returns (r: string)
      requires Valid()
      requires NoKey(alerts, AlertId, id)
      requires !IsPending(id)
      modifies this
      ensures Valid()
      ensures r == id
      ensures alerts == old(alerts) + [Alert(id, message, Default, duration, now)]
      ensures pending == if duration > 0 then old(pending) + [Removal(id, duration)] else old(pending)
    {
      r := Show(message, id, now, Default, duration);
    }

    /** `remove`: drop every alert with id `id`. Scheduled removals stay scheduled. */
    method Remove(id: string)
      requires Valid()
      modifies this`alerts
      ensures Valid()
      ensures alerts == RemovedAlerts(old(alerts), id)
    {
      alerts := RemovedAlerts(alerts, id);
    }

    /** `clear`: empty the list. Scheduled removals stay scheduled and later find nothing. */
    method Clear()
      requires Valid()
      modifies this`alerts
      ensures Valid()
      ensures alerts == []
    {
      alerts := [];
    }

    /** `set`: replace the list wholesale. */
    method Set(value: seq<Alert>)
      requires Valid()
      modifies this`alerts
      ensures Valid()
      ensures alerts == value
    {
      alerts := value;
    }

    /**
     * The timer callback of the `k`-th pending removal: the same filter as
     * `remove`, after which that removal is no longer pending.
     */
    method RunRemoval(k: nat)
      requires Valid()
      requires k < |pending|
      modifies this
      ensures Valid()
      ensures alerts == RemovedAlerts(old(alerts), old(pending)[k].id)
      ensures pending == old(pending)[..k] + old(pending)[k + 1..]
      ensures forall a | a in old(alerts) && !old(IsPending(a.id)) :: a in alerts
    {
      alerts := RemovedAlerts(alerts, pending[k].id);
      pending := pending[..k] + pending[k + 1..];
    }
  }

  /**
   * `show("Saved!", "success")` yields exactly one alert of that id and kind,
   * scheduled for removal after 5000 ms. An alert shown next with duration 0
   * schedules nothing, and it outlives the first alert's removal.
   */
  method SavedAlertLifecycle(id: string, other: string, now: int)
    requires id != other
  {
    var store := new AlertStore();
    var r := store.ShowSuccess("Saved!", id, now);
    assert r == id;
    assert store.alerts == [Alert(id, "Saved!", Success, 5000, now)];
    assert store.pending == [Removal(id, 5000)];

    var s := store.Show("kept", other, now, Default, 0);
    assert store.pending == [Removal(id, 5000)];
    store.RunRemoval(0);
    assert store.pending == [];
    assert store.alerts == [Alert(other, "kept", Default, 0, now)];
  }
}
