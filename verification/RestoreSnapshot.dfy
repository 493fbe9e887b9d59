/** RestoreSnapshot: status.jobs as the pipeline's memory. A snapshot is sorted, names no Job twice, never
    forgets a name, and shows every listed Job's current state. */
module RestoreSnapshot {
  import opened Wrappers
  import opened Sorting
  import opened Strings
  import opened RestoreSpec

  lemma ByJobIsOrder()
    ensures WeakOrder(ByJob)
  {
    LessIsOrder();
    forall x: JobEntry, y: JobEntry, z: JobEntry | ByJob(x, y) && ByJob(y, z) ensures ByJob(x, z) {
      LessTransitive(x.job, y.job, z.job);
    }
    forall x: JobEntry, y: JobEntry, z: JobEntry | ByJob(x, z) ensures ByJob(x, y) || ByJob(y, z) {
      assert Less(x.job, y.job) || Less(y.job, z.job);
    }
  }

  lemma EntryIsUnique(jobs: seq<JobEntry>, e: JobEntry)
    requires UniqueJobs(jobs) && e in jobs
    ensures e.job in KnownNames(jobs) && EntryOf(jobs, e.job) == e
  {
    var f := EntryOf(jobs, e.job);
    var i :| 0 <= i < |jobs| && jobs[i] == e;
    var j :| 0 <= j < |jobs| && jobs[j] == f;
    assert i == j;
  }

  // What a snapshot contains, whatever order the Jobs were listed in.
  ghost predicate InSnapshot(restore: string, recorded: seq<JobEntry>, listed: map<string, Job>, e: JobEntry) {
    if e.job in LabelledNames(listed) then e == LiveEntry(restore, e.job, listed[e.job]) else e in recorded
  }

  lemma SnapshotHas(restore: string, recorded: seq<JobEntry>, listed: map<string, Job>, e: JobEntry)
    requires UniqueJobs(recorded) && InSnapshot(restore, recorded, listed, e)
    ensures e in Snapshot(restore, recorded, listed)
  {
    var names := LabelledNames(listed) + KnownNames(recorded);
    var order := InOrder(names);
    if e.job !in LabelledNames(listed) { EntryIsUnique(recorded, e); }
    assert e.job in order;
    var i :| 0 <= i < |order| && order[i] == e.job;
    assert Snapshot(restore, recorded, listed)[i] == SnapshotEntry(restore, recorded, listed, e.job) == e;
  }

  lemma SnapshotOnly(restore: string, recorded: seq<JobEntry>, listed: map<string, Job>, e: JobEntry)
    requires e in Snapshot(restore, recorded, listed)
    ensures InSnapshot(restore, recorded, listed, e)
  {
    var order := InOrder(LabelledNames(listed) + KnownNames(recorded));
    var i :| 0 <= i < |order| && Snapshot(restore, recorded, listed)[i] == e;
    assert order[i] in order;
    assert e == SnapshotEntry(restore, recorded, listed, order[i]);
    assert e.job == order[i];
  }

  lemma SnapshotMembers(restore: string, recorded: seq<JobEntry>, listed: map<string, Job>)
    requires UniqueJobs(recorded)
    ensures forall e :: e in Snapshot(restore, recorded, listed) <==> InSnapshot(restore, recorded, listed, e)
  {
    forall e ensures e in Snapshot(restore, recorded, listed) <==> InSnapshot(restore, recorded, listed, e) {
      if InSnapshot(restore, recorded, listed, e) { SnapshotHas(restore, recorded, listed, e); }
      if e in Snapshot(restore, recorded, listed) { SnapshotOnly(restore, recorded, listed, e); }
    }
  }

  lemma SnapshotSorted(restore: string, recorded: seq<JobEntry>, listed: map<string, Job>)
    ensures Ascending(ByJob, Snapshot(restore, recorded, listed))
    ensures UniqueJobs(Snapshot(restore, recorded, listed))
  {
    var order := InOrder(LabelledNames(listed) + KnownNames(recorded));
    var out := Snapshot(restore, recorded, listed);
    assert forall i | 0 <= i < |out| :: out[i].job == order[i];
    forall i, j | 0 <= i < j < |out| ensures ByJob(out[i], out[j]) && out[i].job != out[j].job {
      assert Less(order[i], order[j]);
      LessIrreflexive(order[i]);
    }
  }

  // Any list with a snapshot's members and distinct names sorts to that snapshot.
  lemma SortsToSnapshot(restore: string, recorded: seq<JobEntry>, listed: map<string, Job>, out: seq<JobEntry>)
    requires UniqueJobs(recorded) && UniqueJobs(out)
    requires forall e :: e in out <==> InSnapshot(restore, recorded, listed, e)
    ensures Sort(ByJob, out) == Snapshot(restore, recorded, listed)
  {
    ByJobIsOrder();
    forall i, j | 0 <= i < j < |out| ensures ByJob(out[i], out[j]) || ByJob(out[j], out[i]) {
      LessTotal(out[i].job, out[j].job);
    }
    SortAscends(ByJob, out);
    SortPermutes(ByJob, out);
    SnapshotMembers(restore, recorded, listed);
    SnapshotSorted(restore, recorded, listed);
    AscendingUnique(ByJob, Sort(ByJob, out), Snapshot(restore, recorded, listed));
  }

  // Looking a name up in a duplicate-free list finds its entry.
  lemma {:induction false} RecordedStateOf(jobs: seq<JobEntry>, e: JobEntry)
    requires UniqueJobs(jobs) && e in jobs
    ensures RecordedState(jobs, e.job) == Some(e.state)
  {
    if jobs[0] != e {
      assert jobs[0].job != e.job;
      RecordedStateOf(jobs[1..], e);
    }
  }

  // A snapshot keeps every recorded name, and the state of every recorded Job that is not listed.
  lemma SnapshotRemembers(restore: string, recorded: seq<JobEntry>, listed: map<string, Job>)
    requires UniqueJobs(recorded)
    ensures KnownNames(Snapshot(restore, recorded, listed)) == KnownNames(recorded) + LabelledNames(listed)
    ensures forall e | e in recorded && e.job !in LabelledNames(listed) :: e in Snapshot(restore, recorded, listed)
    ensures forall n | n in LabelledNames(listed) :: LiveEntry(restore, n, listed[n]) in Snapshot(restore, recorded, listed)
  {
    SnapshotMembers(restore, recorded, listed);
    var out := Snapshot(restore, recorded, listed);
    forall n ensures n in KnownNames(out) <==> n in KnownNames(recorded) + LabelledNames(listed) {
      if n in LabelledNames(listed) {
        assert InSnapshot(restore, recorded, listed, LiveEntry(restore, n, listed[n]));
      } else if n in KnownNames(recorded) {
        var e :| e in recorded && e.job == n;
        assert InSnapshot(restore, recorded, listed, e);
      }
    }
  }
}
