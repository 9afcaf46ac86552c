/** The cleanup journal over a whole history: operations one after another, any of them cut off part way by
    its writer's death, losses of power in between, then a load.

    A record and its folder are synced before Create or Save answers, and a removed folder before Discard
    does. An entry of the name index is only linked into place, so a loss of power can take any of them back. */
module JournalHistory {
  import opened Wrappers
  import opened Journal

  datatype Op = Create(job: Job) | Save(job: Job) | Discard(job: Job) | Load | PowerLoss(lost: set<Key>)

  /** One operation, and how many disk operations its writer lives for. */
  datatype Attempt = Attempt(op: Op, life: nat)

  /** The record an operation may leave for a job id. */
  predicate Writes(op: Op, id: string, record: Option<Job>) {
    (op.Create? || op.Save?) && op.job.id == id && record == Some(op.job)
  }

  /** A job's record after one operation: the old one whole, the new one whole, or none. */
  predicate OldNewOrNone(a: Image, op: Op, b: Image, id: string) {
    RecordOf(b, id) == RecordOf(a, id) || RecordOf(b, id) == None || Writes(op, id, RecordOf(b, id))
  }

  predicate Loses(op: Op, k: Key) {
    op.PowerLoss? && k in op.lost
  }

  /** Every name the operation does not lose stays, with its first use. */
  ghost predicate NamesLeft(a: Image, op: Op, b: Image) {
    forall k :: k in a.names && !Loses(op, k) ==> k in b.names && b.names[k] == a.names[k]
  }

  /** The disk after a loss of power. */
  function AfterLoss(a: Image, lost: set<Key>): Image {
    a.(names := a.names - lost)
  }

  /** A loadable record's own path is among the names lost. */
  ghost predicate LosesALoadable(layout: Layout, a: Image, lost: set<Key>) {
    exists id :: Loadable(layout, a, id).Some? && PathKey(Loadable(layout, a, id).value.original) in lost
  }

  /** An operation that may leave a record whose path the index lacks: a Save of a job never created, or a loss
      of power that takes a loadable job's path. */
  ghost predicate Unindexes(layout: Layout, a: Image, op: Op) {
    || (op.Save? && PathKey(op.job.original) !in a.names)
    || (op.PowerLoss? && LosesALoadable(layout, a, op.lost))
  }

  /** One step of a history. */
  ghost predicate Steps(layout: Layout, a: Image, op: Op, b: Image) {
    && NamesLeft(a, op, b) && TreesKept(a, b)
    && (forall id :: OldNewOrNone(a, op, b, id))
    && (Indexed(layout, a) && !Unindexes(layout, a, op) ==> Indexed(layout, b))
  }

  /** A loss of power leaves a complete index complete exactly when it takes no loadable job's path. */
  lemma LossUnindexesExactlyWhen(layout: Layout, a: Image, lost: set<Key>)
    requires Indexed(layout, a)
    ensures Indexed(layout, AfterLoss(a, lost)) <==> !LosesALoadable(layout, a, lost)
  {
    hide Check;
    assert forall id :: Loadable(layout, AfterLoss(a, lost), id) == Loadable(layout, a, id);
  }

  lemma LossSteps(layout: Layout, a: Image, lost: set<Key>)
    ensures Steps(layout, a, PowerLoss(lost), AfterLoss(a, lost))
  {
    var b := AfterLoss(a, lost);
    assert forall id :: RecordOf(b, id) == RecordOf(a, id);
    if Indexed(layout, a) {
      LossUnindexesExactlyWhen(layout, a, lost);
    }
    hide RecordOf, Indexed, LosesALoadable;
  }

  /** Any job at all that checks: created whole on an empty disk, it outlives its own path in the index when the
      power goes before that entry was written back. */
  method RecordOutlivesItsName(layout: Layout, job: Job) returns (image: Image)
    requires Check(layout, job)
    ensures Loadable(layout, image, job.id) == Some(job) && PathKey(job.original) !in image.names
    ensures !Indexed(layout, image)
  {
    hide Check;
    var journal := new Journal(layout, Image(map[], map[], map[]), 6);
    var end := journal.Create(job);
    image := AfterLoss(journal.image, {PathKey(job.original)});
    assert RecordOf(image, job.id) == RecordOf(journal.image, job.id);
  }

  /** One attempted operation is one step, wherever its writer died. */
  method Run(layout: Layout, image: Image, attempt: Attempt) returns (after: Image)
    ensures Steps(layout, image, attempt.op, after)
    ensures attempt.op.PowerLoss? ==> after == AfterLoss(image, attempt.op.lost)
  {
    if attempt.op.PowerLoss? {
      LossSteps(layout, image, attempt.op.lost);
      return AfterLoss(image, attempt.op.lost);
    }
    var journal := new Journal(layout, image, attempt.life);
    hide Indexed, NamesKept, NamesLeft, TreesKept, RecordOf, OnlyFolder, Steps, Check, AllDisposable, IsDamaged,
         InQueueOrder, DistinctIds, Unindexes, Loadable, AreaFilled;
    match attempt.op {
      case Create(job) =>
        var _ := journal.Create(job);
        FolderSteps(layout, image, attempt.op, journal.image, job.id);
      case Save(job) =>
        var _ := journal.Save(job);
        SaveUnindexes(layout, image, job);
        SameNames(image, journal.image);
        FolderSteps(layout, image, attempt.op, journal.image, job.id);
      case Discard(job) =>
        var _ := journal.Discard(job);
        FolderSteps(layout, image, attempt.op, journal.image, job.id);
      case Load =>
        var _, _, _ := journal.Load();
        RecordsStand(layout, image, journal.image);
    }
    after := journal.image;
  }

  /** An operation on one job's folder is a step. */
  lemma FolderSteps(layout: Layout, a: Image, op: Op, b: Image, id: string)
    requires !op.PowerLoss? && NamesKept(a, b) && TreesKept(a, b) && OnlyFolder(a, b, id)
    requires OldNewOrNone(a, op, b, id)
    requires Indexed(layout, a) && !Unindexes(layout, a, op) ==> Indexed(layout, b)
    ensures Steps(layout, a, op, b)
  {
    hide Indexed, Unindexes, TreesKept;
    forall other ensures OldNewOrNone(a, op, b, other) {
      assert other != id ==> RecordOf(b, other) == RecordOf(a, other);
    }
  }

  lemma SaveUnindexes(layout: Layout, a: Image, job: Job)
    ensures PathKey(job.original) !in a.names ==> Unindexes(layout, a, Save(job))
  {
  }

  lemma RecordsStand(layout: Layout, a: Image, b: Image)
    requires NamesKept(a, b) && TreesKept(a, b) && forall id :: RecordOf(b, id) == RecordOf(a, id)
    requires Indexed(layout, a) ==> Indexed(layout, b)
    ensures Steps(layout, a, Load, b)
  {
    hide Indexed, RecordOf, TreesKept;
  }

  lemma SameNames(a: Image, b: Image)
    requires b.names == a.names
    ensures NamesKept(a, b)
  {
  }

  /** The images a history goes through. */
  ghost predicate Follows(layout: Layout, images: seq<Image>, history: seq<Attempt>) {
    |images| == |history| + 1
    && forall k :: 0 <= k < |history| ==> Steps(layout, images[k], history[k].op, images[k + 1])
  }

  lemma KeptTwice(a: Image, b: Image, c: Image)
    requires TreesKept(a, b) && TreesKept(b, c)
    ensures TreesKept(a, c)
  {
    hide Disposable, Litter;
  }

  /** Some operation of the history wrote the record. */
  ghost predicate WrittenIn(history: seq<Attempt>, id: string, record: Option<Job>) {
    exists k :: 0 <= k < |history| && Writes(history[k].op, id, record)
  }

  /** No loss of power in the history takes the name. */
  predicate Outlasts(history: seq<Attempt>, k: Key) {
    forall i :: 0 <= i < |history| ==> !Loses(history[i].op, k)
  }

  /** Over any history a name leaves the index only in a loss of power and no tree is removed, and a record is
      the first image's or one some operation of the history wrote, whole. */
  lemma {:induction false} HistoryKeeps(layout: Layout, images: seq<Image>, history: seq<Attempt>)
    requires Follows(layout, images, history)
    ensures TreesKept(images[0], images[|history|]) && PayloadsKept(images[0], images[|history|])
    ensures forall k :: k in images[0].names && Outlasts(history, k) ==>
              k in images[|history|].names && images[|history|].names[k] == images[0].names[k]
    ensures forall id ::
              RecordOf(images[|history|], id) == RecordOf(images[0], id) || RecordOf(images[|history|], id) == None
              || WrittenIn(history, id, RecordOf(images[|history|], id))
    ensures Indexed(layout, images[0])
            && (forall k :: 0 <= k < |history| ==> !Unindexes(layout, images[k], history[k].op))
            ==> Indexed(layout, images[|history|])
    decreases |history|
  {
    hide Indexed, NamesKept, TreesKept, PayloadsKept, RecordOf, Unindexes, Loses;
    if history == [] {
      NothingLost(images[0]);
      PayloadsStay(images[0], images[0]);
    } else {
      var n := |history| - 1;
      var front := history[..n];
      assert Follows(layout, images[..n + 1], front);
      HistoryKeeps(layout, images[..n + 1], front);
      assert images[..n + 1][0] == images[0] && images[..n + 1][n] == images[n];
      assert Steps(layout, images[n], history[n].op, images[n + 1]);
      KeptTwice(images[0], images[n], images[n + 1]);
      PayloadsStay(images[0], images[n + 1]);
      forall k | k in images[0].names && Outlasts(history, k)
        ensures k in images[n + 1].names && images[n + 1].names[k] == images[0].names[k]
      {
        assert Outlasts(front, k);
        assert !Loses(history[n].op, k);
      }
      forall id
        ensures RecordOf(images[n + 1], id) == RecordOf(images[0], id) || RecordOf(images[n + 1], id) == None
                || WrittenIn(history, id, RecordOf(images[n + 1], id))
      {
        assert OldNewOrNone(images[n], history[n].op, images[n + 1], id);
        if WrittenIn(front, id, RecordOf(images[n], id)) {
          var k :| 0 <= k < n && Writes(front[k].op, id, RecordOf(images[n], id));
          assert Writes(history[k].op, id, RecordOf(images[n], id));
        }
      }
    }
  }

  lemma NothingLost(image: Image)
    ensures TreesKept(image, image)
  {
  }

  /** A history of operations cut off anywhere, and then a load, which ends when its writer lives for every entry
      there is to remove: every job it returns is one the disk held at first or some operation wrote whole,
      checks, and has its path in the name index. */
  method Recover(layout: Layout, image: Image, history: seq<Attempt>, life: nat)
    returns (end: End, jobs: seq<Job>, ghost images: seq<Image>)
    ensures Follows(layout, images, history) && images[0] == image
    ensures end == Done ==> forall job :: job in jobs ==>
              && Check(layout, job)
              && (RecordOf(image, job.id) == Some(job) || WrittenIn(history, job.id, Some(job)))
    ensures end == Done && Indexed(layout, image)
            && (forall k :: 0 <= k < |history| ==> !Unindexes(layout, images[k], history[k].op))
            ==> forall job :: job in jobs ==> PathKey(job.original) in images[|history|].names
    ensures end == Done ==> forall id ::
              Loadable(layout, images[|history|], id).Some? ==> Loadable(layout, images[|history|], id).value in jobs
    ensures end != Done ==> end == Cut && life < Clutter(images[|history|].folders)
  {
    images := [image];
    var now := image;
    var k := 0;
    hide Steps;
    while k < |history|
      invariant 0 <= k <= |history| && |images| == k + 1 && images[0] == image && images[k] == now
      invariant forall j :: 0 <= j < k ==> Steps(layout, images[j], history[j].op, images[j + 1])
    {
      var after := Run(layout, now, history[k]);
      images := images + [after];
      now := after;
      k := k + 1;
    }
    HistoryKeeps(layout, images, history);
    var journal := new Journal(layout, now, life);
    var damaged;
    hide NamesKept, TreesKept, Check, WrittenIn;
    end, jobs, damaged := journal.Load();
  }
}
