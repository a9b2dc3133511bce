/** The repository over four key families, and the use cases that drive it. */
module AlertRepository {
  import opened Options
  import opened AlertStore
  import opened AlertLives

  class RedisAlertRepository {
    var alerts: map<string, Alert>
    var activeAlerts: set<string>
    var shelfAlerts: map<string, set<string>>
    var cellAlert: map<Cell, string>

    ghost function Contents(): Store
      reads this
    {
      Store(alerts, activeAlerts, shelfAlerts, cellAlert)
    }

    constructor ()
      ensures Contents() == EMPTY_STORE
    {
      alerts, activeAlerts, shelfAlerts, cellAlert := map[], {}, map[], map[];
    }

    method Create(alert: Alert) returns (saved: Alert)
      modifies this
      ensures Contents() == old(Contents()).Create(alert) && saved == alert
    {
      alerts := alerts[alert.alertId := alert];
      if !alert.dismissed {
        activeAlerts := activeAlerts + {alert.alertId};
      }
      var filed := if alert.cell.shelfId in shelfAlerts then shelfAlerts[alert.cell.shelfId] else {};
      shelfAlerts := shelfAlerts[alert.cell.shelfId := filed + {alert.alertId}];
      cellAlert := cellAlert[alert.cell := alert.alertId];
      saved := alert;
    }

    method GetById(id: string) returns (alert: Option<Alert>)
      ensures alert == if id in alerts then Some(alerts[id]) else None
    {
      alert := if id in alerts then Some(alerts[id]) else None;
    }

    /** The open alerts of a shelf, or of the store when no shelf is named. */
    method GetActiveAlerts(shelfId: Option<string>) returns (open: seq<Alert>)
      requires Contents().Keyed()
      ensures forall a :: a in open <==> a in Contents().ActiveAlerts(shelfId)
      ensures forall i, j | 0 <= i < j < |open| :: open[i].alertId != open[j].alertId
    {
      var ids := if shelfId.Some? && shelfId.value != "" then
          (if shelfId.value in shelfAlerts then shelfAlerts[shelfId.value] else {})
        else activeAlerts;
      open := [];
      var left := ids;
      while left != {}
        invariant left <= ids
        invariant forall a :: a in open <==>
          exists id :: id in ids && id !in left && id in alerts && alerts[id].Open() && alerts[id] == a
        invariant forall i | 0 <= i < |open| :: open[i].alertId in ids && open[i].alertId !in left
        invariant forall i, j | 0 <= i < j < |open| :: open[i].alertId != open[j].alertId
      {
        var id :| id in left;
        left := left - {id};
        var alert := GetById(id);
        if alert.Some? && !alert.value.confirmed && !alert.value.dismissed {
          open := open + [alert.value];
        }
      }
    }

    method GetByCell(cell: Cell) returns (alert: Option<Alert>)
      ensures alert == Contents().GetByCell(cell)
    {
      if cell !in cellAlert {
        return None;
      }
      alert := GetById(cellAlert[cell]);
      if alert.Some? && alert.value.dismissed {
        return None;
      }
    }

    /** Write back a changed alert; `None` stands for the not-found error. */
    method Update(alert: Alert, now: int) returns (saved: Option<Alert>)
      modifies this
      ensures alert.alertId !in old(alerts) ==> saved == None && Contents() == old(Contents())
      ensures alert.alertId in old(alerts) ==>
        saved == Some(alert.(updatedAt := now)) && Contents() == old(Contents()).Put(alert.(updatedAt := now))
    {
      var existing := GetById(alert.alertId);
      if existing.None? {
        return None;
      }
      alerts := alerts[alert.alertId := alert.(updatedAt := now)];
      saved := Some(alert.(updatedAt := now));
    }

    method ConfirmAlert(id: string, staff: string, now: int) returns (saved: Option<Alert>)
      modifies this
      ensures Contents() == old(Contents()).Confirm(id, staff, now)
      ensures saved == if id in alerts then Some(alerts[id]) else None
    {
      saved := GetById(id);
      if saved.Some? {
        saved := Some(saved.value.(confirmed := true, confirmedBy := Some(staff), confirmedAt := Some(now), updatedAt := now));
        alerts := alerts[id := saved.value];
        activeAlerts := activeAlerts - {id};
      }
    }

    method DismissAlert(id: string, now: int) returns (saved: Option<Alert>)
      modifies this
      ensures Contents() == old(Contents()).Dismiss(id, now)
      ensures saved == if id in alerts then Some(alerts[id]) else None
    {
      saved := GetById(id);
      if saved.Some? {
        saved := Some(saved.value.(dismissed := true, updatedAt := now));
        alerts := alerts[id := saved.value];
        activeAlerts := activeAlerts - {id};
        cellAlert := cellAlert - {saved.value.cell};
      }
    }
  }

  class AlertGenerationUseCase {
    const repository: RedisAlertRepository

    constructor (repository: RedisAlertRepository)
      ensures this.repository == repository
    {
      this.repository := repository;
    }

    /** `None` stands for the validation error on a frame count below one. */
    method GenerateAlert(r: AlertRequest, evidence: seq<string>, newId: string,
                         now: int) returns (alert: Option<Alert>)
      requires repository.Contents().Keyed() && newId !in repository.alerts
      modifies repository
      ensures repository.Contents() == old(repository.Contents()).Generate(r, evidence, newId, now)
      ensures old(repository.Contents()).Agrees() ==> repository.Contents().Agrees()
      ensures r.consecutiveFrames >= 1 ==>
        alert.Some? && alert.value.Open() && repository.Contents().GetByCell(r.cell) == alert
    {
      hide Store.OpenPointed, Store.CellsNamed, Store.ShelvesComplete;
      if repository.Contents().Agrees() {
        GenerateAgrees(repository.Contents(), r, evidence, newId, now);
      }
      assert evidence == [] ==> forall paths: seq<string> :: paths + evidence == paths;
      var existing := repository.GetByCell(r.cell);
      if existing.Some? && !existing.value.confirmed && !existing.value.dismissed {
        var a := existing.value.(lastSeen := now, consecutiveFrames := r.consecutiveFrames);
        if |evidence| > 0 {
          a := a.(evidencePaths := a.evidencePaths + evidence);
        }
        alert := repository.Update(a, now);
        return;
      }
      if r.consecutiveFrames < 1 {
        return None;
      }
      var saved := repository.Create(NewAlert(r, evidence, newId, now));
      alert := Some(saved);
    }

    method ClearCellAlerts(cell: Cell, now: int)
      requires repository.Contents().Keyed()
      modifies repository
      ensures repository.Contents() == old(repository.Contents()).Clear(cell, now)
      ensures old(repository.Contents()).Agrees() ==>
        repository.Contents().Agrees() && NoneOpen(repository.Contents(), cell)
    {
      if repository.Contents().Agrees() {
        ClearAgrees(repository.Contents(), cell, now);
        ClearedExactly(repository.Contents(), cell, now);
      }
      hide NoneOpen, Store.Agrees;
      var alert := repository.GetByCell(cell);
      if alert.Some? && !alert.value.confirmed {
        var dismissed := repository.DismissAlert(alert.value.alertId, now);
      }
    }
  }
}
