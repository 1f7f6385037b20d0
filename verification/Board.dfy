/** The tables the scheduler reads, updated in place as the create path updates them. */
module Board {
  import opened Text
  import opened Lifecycle
  import opened Reachability
  import opened Scheduler

  class Board {
    var subtasks: map<Id, Row>
    var deps: Edges
    var followups: Edges
    var metas: map<Id, MetaTaskState>

    function Tables(): Db
      reads this
    {
      Db(subtasks, deps, followups, metas)
    }

    constructor (db: Db)
      ensures Tables() == db
    {
      subtasks, deps, followups, metas := db.subtasks, db.deps, db.followups, db.metas;
    }

    method RefreshMetaTaskState(m: Id)
      modifies this`metas
      ensures Tables() == Refresh(old(Tables()), m)
    {
      if m !in metas || metas[m] == MetaCancelled { return; }
      var desired := Planning;
      if exists t :: t in subtasks && subtasks[t].metaTask == m {
        if exists t :: t in subtasks && subtasks[t].metaTask == m
                       && subtasks[t].state !in {Applied, Completed, Failed, Abandoned, Decided} {
          desired := MetaActive;
        } else {
          desired := MetaCompleted;
        }
      }
      if metas[m] != desired { metas := metas[m := desired]; }
    }

    /** One edge per declared dependency, until one of them does not exist. */
    method InsertSubtaskDependencies(t: Id, dependsOn: seq<Id>) returns (ok: bool)
      modifies this`deps
      ensures ok <==> |Dedupe(dependsOn)| <= 64 && t !in dependsOn
                      && forall d :: d in dependsOn ==> d in subtasks
      ensures ok ==> deps == old(deps) + EdgesTo(t, dependsOn)
    {
      var normalized := NormalizeSubtaskDependencies(t, dependsOn);
      if !normalized.Dependencies? { return false; }
      var ids := normalized.ids;
      assert forall d :: d in ids <==> d in dependsOn;
      var i := 0;
      while i < |ids|
        invariant 0 <= i <= |ids|
        invariant forall j :: 0 <= j < i ==> ids[j] in subtasks
        invariant forall e :: e in deps <==> e in old(deps) || (e.0 == t && e.1 in ids[..i])
      {
        if ids[i] !in subtasks {
          assert ids[i] in dependsOn;
          return false;
        }
        deps := deps + {(t, ids[i])};
        i := i + 1;
      }
      assert ids[..i] == ids;
      return true;
    }

    /** The subtask, its edges and the refreshed meta-task; on any error nothing at all. */
    method CreateWorkSubtask(req: CreateReq) returns (ok: bool)
      modifies this
      ensures Tables() == Create(old(Tables()), req)
      ensures ok <==> CreateOk(old(Tables()), req)
    {
      if !Claimable(Tables(), req.metaTask) || req.t in subtasks { return false; }
      var before, beforeDeps, beforeMetas := subtasks, deps, metas;
      subtasks := subtasks[req.t := Row(req.metaTask, Work, Available, req.policy, req.priority, req.route, req.now)];
      RefreshMetaTaskState(req.metaTask);
      ok := InsertSubtaskDependencies(req.t, req.dependsOn);
      if !ok { subtasks, deps, metas := before, beforeDeps, beforeMetas; }
    }
  }
}
