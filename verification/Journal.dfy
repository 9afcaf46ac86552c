/** The cleanup queue's durable records, written by a process that may die between any two of its disk
    operations. What a loss of power takes besides is in JournalHistory. */
module Journal {
  import opened Wrappers

  /** A path, as its components. */
  type Path = seq<string>

  function Dir(p: Path): Path {
    if p == [] then [] else p[..|p| - 1]
  }

  function Base(p: Path): string {
    if p == [] then "" else p[|p| - 1]
  }

  const RECORD_NAME := "job.json"
  const REGISTERED_NAME := "registered"
  const PAYLOAD_NAME := "payload"
  const SCRATCH_NAME := "index"
  const SPOOL_NAME := ".ccx-cleanup"

  /** One removal's record. intact says the fields not modelled here pass the record's own checks. */
  datatype Job = Job(id: string, seqno: nat, original: Path, registered: Path, payload: Path, intact: bool)

  datatype Content = Record(job: Job) | Torn | Tree | Scratch

  datatype Key = PathKey(path: Path) | LaneKey(pool: string, name: string)

  datatype Use = Use(path: Path, user: string)

  /** What is on the disk: the name index, each job folder's entries, and each spool area's. */
  datatype Image = Image(names: map<Key, Use>, folders: map<string, map<string, Content>>, 
                         areas: map<Path, set<string>>)

  /** The state tree's jobs folder, and which names are job ids. */
  datatype Layout = Layout(jobs: Path, isJobId: string -> bool)

  /** LaneName: the pool directory's name and the path's own. */
  function NameKeys(path: Path): (keys: seq<Key>)
    ensures |keys| == 2
  {
    [PathKey(path), LaneKey(Base(Dir(path)), Base(path))]
  }

  /** The keys a path is recorded under: itself, and its lane, the last two components of its path. */
  lemma LaneOf(path: Path)
    ensures PathKey(path) in NameKeys(path)
    ensures |path| >= 2 ==> LaneKey(path[|path| - 2], path[|path| - 1]) in NameKeys(path)
  {
    assert |path| >= 2 ==> NameKeys(path)[1] == LaneKey(path[|path| - 2], path[|path| - 1]);
    assert NameKeys(path)[0] == PathKey(path);
  }

  /** Area: the registered and payload paths of a job under a jobs folder. */
  function RegisteredIn(jobs: Path, id: string): Path {
    jobs + [id, REGISTERED_NAME]
  }

  function PayloadIn(jobs: Path, id: string): Path {
    jobs + [id, PAYLOAD_NAME]
  }

  /** holds: the layout's own jobs folder, or the one at a volume's spool. */
  predicate Holds(layout: Layout, jobs: Path) {
    jobs == layout.jobs || (Base(jobs) == "jobs" && Base(Dir(jobs)) == SPOOL_NAME)
  }

  /** Journal.check, over the fields modelled. */
  predicate Check(layout: Layout, job: Job) {
    var jobs := Dir(Dir(job.payload));
    && job.intact && layout.isJobId(job.id) && job.seqno != 0
    && Base(Dir(job.registered)) == job.id && Base(job.registered) == REGISTERED_NAME
    && job.payload == Dir(job.registered) + [PAYLOAD_NAME]
    && job.registered == RegisteredIn(jobs, job.id) && job.payload == PayloadIn(jobs, job.id)
    && Holds(layout, jobs)
  }

  /** A jobs folder: the layout's own, or one directly inside a spool. */
  ghost predicate IsJobsFolder(layout: Layout, jobs: Path) {
    jobs == layout.jobs || (|jobs| >= 2 && jobs[|jobs| - 1] == "jobs" && jobs[|jobs| - 2] == ".ccx-cleanup")
  }

  lemma JobsFoldersAre(layout: Layout, jobs: Path)
    ensures IsJobsFolder(layout, jobs) <==> Holds(layout, jobs)
  {
    assert |jobs| >= 2 ==> Dir(jobs)[|jobs| - 2] == jobs[|jobs| - 2];
  }

  /** The two paths are the registered and payload entries of the job's folder in a jobs folder. */
  ghost predicate InItsFolder(job: Job, jobs: Path) {
    job.registered == jobs + [job.id, "registered"] && job.payload == jobs + [job.id, "payload"]
  }

  lemma FolderOf(job: Job)
    ensures forall jobs :: InItsFolder(job, jobs) ==>
              && jobs == Dir(Dir(job.payload)) && Dir(job.registered) == jobs + [job.id]
              && Base(Dir(job.registered)) == job.id
    ensures var jobs := Dir(Dir(job.payload));
            (job.registered == RegisteredIn(jobs, job.id) && job.payload == PayloadIn(jobs, job.id)) ==>
              InItsFolder(job, jobs)
  {
    forall jobs | InItsFolder(job, jobs)
      ensures jobs == Dir(Dir(job.payload)) && Dir(job.registered) == jobs + [job.id]
      ensures Base(Dir(job.registered)) == job.id
    {
      assert Dir(job.payload) == jobs + [job.id] && Dir(job.registered) == jobs + [job.id];
      assert Dir(Dir(job.payload)) == jobs;
    }
  }

  /** A record passes the check exactly when it is intact, numbered and properly named, and its two paths are the
      registered and payload entries of its own folder in the layout's jobs folder or a spool's. */
  lemma CheckedNamesItsOwnFolder(layout: Layout, job: Job)
    ensures Check(layout, job) <==>
              && job.intact && layout.isJobId(job.id) && job.seqno > 0
              && exists jobs :: IsJobsFolder(layout, jobs) && InItsFolder(job, jobs)
  {
    FolderOf(job);
    JobsFoldersAre(layout, Dir(Dir(job.payload)));
    hide Dir, Holds, IsJobsFolder;
    if jobs :| IsJobsFolder(layout, jobs) && InItsFolder(job, jobs) {
      assert job.payload == Dir(job.registered) + [PAYLOAD_NAME];
    }
  }

  predicate StartsWith(s: string, prefix: string) {
    prefix <= s
  }

  /** The names of a record, of a record being written, and of scratch: all that is ever removed from a folder. */
  ghost predicate Litter(name: string) {
    name == "job.json" || ".job.json." <= name || "index" <= name
  }

  /** The entries of a job folder that are not the job's tree: its record, its temporaries, its scratch. */
  predicate Disposable(name: string): (d: bool)
    ensures d <==> Litter(name)
  {
    name == RECORD_NAME || StartsWith(name, "." + RECORD_NAME + ".") || StartsWith(name, SCRATCH_NAME)
  }

  /** The job's folder holds its payload or its registered tree. */
  predicate HoldsPayload(image: Image, id: string) {
    id in image.folders && ("payload" in image.folders[id] || "registered" in image.folders[id])
  }

  /** A payload or registered tree in a folder stays there, as it is. */
  ghost predicate PayloadsKept(a: Image, b: Image) {
    forall id, name :: id in a.folders && name in a.folders[id] && (name == "payload" || name == "registered") ==>
      id in b.folders && name in b.folders[id] && b.folders[id][name] == a.folders[id][name]
  }

  lemma NoTreeIsLitter()
    ensures !Litter("payload") && !Litter("registered")
  {
    assert "payload"[0] == 'p' && "registered"[0] == 'r';
    assert ".job.json."[0] == '.' && "index"[0] == 'i' && "job.json"[0] == 'j';
  }

  lemma PayloadsStay(a: Image, b: Image)
    requires TreesKept(a, b)
    ensures PayloadsKept(a, b)
  {
    NoTreeIsLitter();
    hide Litter;
  }

  lemma PayloadIsNotDisposable(image: Image, id: string)
    requires HoldsPayload(image, id)
    ensures !AllDisposable(image.folders[id])
  {
    NoTreeIsLitter();
    hide Litter, Disposable;
  }

  predicate IsTemp(name: string) {
    StartsWith(name, "." + RECORD_NAME + ".")
  }

  /** The record a folder holds, if it reads as one. */
  function RecordOf(image: Image, id: string): Option<Job> {
    if id in image.folders && RECORD_NAME in image.folders[id] && image.folders[id][RECORD_NAME].Record?
    then Some(image.folders[id][RECORD_NAME].job)
    else None
  }

  /** What Load would return for a folder: its record, when it is whole, checks, and names the folder. */
  function Loadable(layout: Layout, image: Image, id: string): Option<Job> {
    match RecordOf(image, id)
    case None => None
    case Some(job) => if Check(layout, job) && job.id == id then Some(job) else None
  }

  /** Every job Load would return has its original path in the name index. */
  ghost predicate Indexed(layout: Layout, image: Image) {
    forall id :: Loadable(layout, image, id).Some? ==>
        PathKey(Loadable(layout, image, id).value.original) in image.names
  }

  /** The index only grows, and a first use stays first. */
  ghost predicate NamesKept(a: Image, b: Image) {
    forall k :: k in a.names ==> k in b.names && b.names[k] == a.names[k]
  }

  /** A folder holding anything but disposable entries keeps every one of its entries, and an area
      holding anything stays. */
  ghost predicate TreesKept(a: Image, b: Image) {
    && (forall id, name :: id in a.folders && name in a.folders[id] && !Litter(name) ==>
      id in b.folders && name in b.folders[id] && b.folders[id][name] == a.folders[id][name])
    && (forall p :: p in a.areas && a.areas[p] != {} ==> p in b.areas && b.areas[p] == a.areas[p])
  }

  /** Nothing but one job's folder changed. */
  ghost predicate OnlyFolder(a: Image, b: Image, id: string) {
    forall other :: other != id ==>
      (other in b.folders <==> other in a.folders)
      && (other in a.folders ==> b.folders[other] == a.folders[other])
  }

  /** Changing one folder keeps the index complete when what that folder now loads is indexed. */
  lemma IndexedSurvives(layout: Layout, a: Image, b: Image, id: string)
    requires Indexed(layout, a) && NamesKept(a, b) && OnlyFolder(a, b, id)
    requires RecordOf(b, id) == RecordOf(a, id) || RecordOf(b, id) == None
          || (RecordOf(b, id).Some? && PathKey(RecordOf(b, id).value.original) in b.names)
    ensures Indexed(layout, b)
  {
    hide Check;
    forall other | Loadable(layout, b, other).Some?
      ensures PathKey(Loadable(layout, b, other).value.original) in b.names
    {
      assert other != id ==> RecordOf(b, other) == RecordOf(a, other);
      assert Loadable(layout, b, other) == Loadable(layout, a, other) || other == id;
    }
  }

  /** What replacing one folder's disposable entries changes. */
  lemma FolderReplaced(a: Image, id: string, folder: map<string, Content>)
    requires id in a.folders
    requires forall name :: !Litter(name) && name in a.folders[id] ==>
               name in folder && folder[name] == a.folders[id][name]
    ensures var b := a.(folders := a.folders[id := folder]);
            && OnlyFolder(a, b, id) && TreesKept(a, b)
            && RecordOf(b, id) == (if RECORD_NAME in folder && folder[RECORD_NAME].Record?
                                   then Some(folder[RECORD_NAME].job) else None)
    ensures RecordOf(a, id) == (if RECORD_NAME in a.folders[id] && a.folders[id][RECORD_NAME].Record?
                                then Some(a.folders[id][RECORD_NAME].job) else None)
  {
    hide Disposable, Litter;
  }

  lemma FolderMade(a: Image, b: Image, id: string)
    requires id !in a.folders && b.folders == a.folders[id := map[]] && b.areas == a.areas
    ensures OnlyFolder(a, b, id) && TreesKept(a, b) && RecordOf(b, id) == RecordOf(a, id)
  {
  }

  lemma FolderGone(a: Image, id: string)
    requires id in a.folders && AllDisposable(a.folders[id])
    ensures var b := a.(folders := a.folders - {id});
            OnlyFolder(a, b, id) && TreesKept(a, b) && RecordOf(b, id) == None
  {
    hide Disposable, Litter;
  }

  lemma OneEntryLess(folder: map<string, Content>, name: string)
    requires name in folder
    ensures |folder - {name}| == |folder| - 1
  {
    assert (folder - {name}).Keys == folder.Keys - {name};
    assert |folder - {name}| == |(folder - {name}).Keys| && |folder| == |folder.Keys|;
  }

  lemma FoldersStand(a: Image, b: Image, id: string)
    requires b.folders == a.folders && b.areas == a.areas
    ensures OnlyFolder(a, b, id) && TreesKept(a, b)
  {
  }

  lemma ChangedTwice(a: Image, b: Image, c: Image, id: string)
    requires OnlyFolder(a, b, id) && OnlyFolder(b, c, id) && TreesKept(a, b) && TreesKept(b, c)
    ensures OnlyFolder(a, c, id) && TreesKept(a, c)
  {
    hide Disposable, Litter;
  }

  /** A temporary's name longer than every name taken. */
  method FreshTemp(taken: set<string>) returns (temp: string)
    ensures IsTemp(temp) && temp !in taken
  {
    temp := "." + RECORD_NAME + ".";
    var todo := taken;
    while todo != {}
      invariant todo <= taken && IsTemp(temp) && forall name :: name in taken - todo ==> |name| < |temp|
      decreases |todo|
    {
      var name :| name in todo;
      while |temp| <= |name|
        invariant IsTemp(temp) && forall other :: other in taken - todo ==> |other| < |temp|
        decreases |name| - |temp|
      {
        temp := temp + "0";
      }
      todo := todo - {name};
    }
  }

  /** How an operation ended: finished, refused, or cut off by the writer's death. */
  datatype End = Done | Refused | Cut

  class Journal {
    const layout: Layout
    var image: Image
    /** How many more disk operations the writer lives for. */
    var life: nat

    constructor (layout: Layout, image: Image, life: nat)
      ensures this.layout == layout && this.image == image && this.life == life
    {
      this.layout, this.image, this.life := layout, image, life;
    }

    /** Every disk operation spends one unit of life, or finds it gone. */
    method Spend() returns (alive: bool)
      modifies this`life
      ensures alive <==> old(life) > 0
      ensures life == old(life) - if alive then 1 else 0
    {
      alive := life > 0;
      if alive {
        life := life - 1;
      }
    }

    /** Names.Record: each key is linked into place unless it is already there. */
    method RecordName(path: Path, user: string) returns (end: End)
      modifies this`image, this`life
      ensures end != Refused && NamesKept(old(image), image)
      ensures image.folders == old(image.folders) && image.areas == old(image.areas)
      ensures end == Cut <==> old(life) < 2
      ensures life == if end == Cut then 0 else old(life) - 2
      ensures end == Done ==> forall k :: k in NameKeys(path) ==> k in image.names
      ensures end == Done ==> PathKey(path) in image.names
      ensures end == Done && |path| >= 2 ==> LaneKey(path[|path| - 2], path[|path| - 1]) in image.names
      ensures forall k :: k in image.names ==>
                k in old(image.names) || (k in NameKeys(path) && image.names[k] == Use(path, user))
    {
      var keys := NameKeys(path);
      var i := 0;
      while i < |keys|
        invariant 0 <= i <= |keys|
        invariant NamesKept(old(image), image) && image.folders == old(image.folders) && image.areas == old(image.areas)
        invariant life == old(life) - i
        invariant forall j :: 0 <= j < i ==> keys[j] in image.names
        invariant forall k :: k in image.names ==>
                    k in old(image.names) || (k in keys && image.names[k] == Use(path, user))
      {
        var alive := Spend();
        if !alive {
          return Cut;
        }
        if keys[i] !in image.names {
          image := image.(names := image.names[keys[i] := Use(path, user)]);
        }
        i := i + 1;
      }
      LaneOf(path);
      return Done;
    }

    /** durable.WriteFile of a record: written beside it under a name nothing else has, then renamed over it.
        It fails, changing nothing, exactly when the folder is not there. */
    method Write(job: Job) returns (end: End)
      modifies this`image, this`life
      ensures end == Refused <==> job.id !in old(image.folders)
      ensures end == Refused ==> image == old(image)
      ensures end == Cut <==> job.id in old(image.folders) && old(life) < 3
      ensures life == if end == Cut then 0 else if end == Done then old(life) - 3 else old(life)
      ensures image.names == old(image.names) && image.areas == old(image.areas)
      ensures OnlyFolder(old(image), image, job.id) && TreesKept(old(image), image)
      ensures RecordOf(image, job.id) == old(RecordOf(image, job.id)) || RecordOf(image, job.id) == Some(job)
      ensures end == Done ==>
                image.folders == old(image.folders)[job.id := old(image.folders[job.id])[RECORD_NAME := Record(job)]]
    {
      if job.id !in image.folders {
        return Refused;
      }
      var temp := FreshTemp(image.folders[job.id].Keys);
      end := WriteBeside(job, temp);
    }

    method WriteBeside(job: Job, temp: string) returns (end: End)
      requires job.id in image.folders && IsTemp(temp) && temp !in image.folders[job.id]
      modifies this`image, this`life
      ensures end != Refused && image.names == old(image.names) && image.areas == old(image.areas)
      ensures end == Cut <==> old(life) < 3
      ensures life == if end == Cut then 0 else old(life) - 3
      ensures OnlyFolder(old(image), image, job.id) && TreesKept(old(image), image)
      ensures RecordOf(image, job.id) == old(RecordOf(image, job.id)) || RecordOf(image, job.id) == Some(job)
      ensures end == Done ==>
                image.folders == old(image.folders)[job.id := old(image.folders[job.id])[RECORD_NAME := Record(job)]]
    {
      assert Disposable(temp) && Disposable(RECORD_NAME) && temp != RECORD_NAME;
      hide Disposable, Litter, IsTemp, OnlyFolder, TreesKept, RecordOf;
      var was, before := image, image.folders[job.id];
      FolderReplaced(was, job.id, before);
      var alive := Spend();
      if !alive {
        return Cut;
      }
      image := was.(folders := was.folders[job.id := before[temp := Torn]]);
      FolderReplaced(was, job.id, before[temp := Torn]);
      alive := Spend();
      if !alive {
        return Cut;
      }
      image := was.(folders := was.folders[job.id := before[temp := Record(job)]]);
      FolderReplaced(was, job.id, before[temp := Record(job)]);
      alive := Spend();
      if !alive {
        return Cut;
      }
      var folder := before[RECORD_NAME := Record(job)];
      image := was.(folders := was.folders[job.id := folder]);
      FolderReplaced(was, job.id, folder);
      return Done;
    }

    /** Create: the name index first, then the folder, then the record. */
    method Create(job: Job) returns (end: End)
      modifies this`image, this`life
      ensures old(Indexed(layout, image)) ==> Indexed(layout, image)
      ensures NamesKept(old(image), image) && TreesKept(old(image), image)
      ensures image.areas == old(image.areas) && OnlyFolder(old(image), image, job.id)
      ensures RecordOf(image, job.id) == old(RecordOf(image, job.id)) || RecordOf(image, job.id) == Some(job)
      ensures !Check(layout, job) ==> end == Refused && image == old(image)
      ensures job.id in old(image.folders) ==> end != Done && image.folders == old(image.folders)
      ensures end == Refused ==>
                image.folders == old(image.folders) && (!Check(layout, job) || job.id in old(image.folders))
      ensures end == Cut <==> Check(layout, job) && old(life) < if job.id in old(image.folders) then 3 else 6
      ensures end == Cut ==> life == 0
      ensures end == Done ==> Loadable(layout, image, job.id) == Some(job) && PathKey(job.original) in image.names
    {
      hide Indexed, Check, Disposable, Litter, OnlyFolder, TreesKept;
      ghost var before := image;
      FoldersStand(before, before, job.id);
      if !Check(layout, job) {
        return Refused;
      }
      end := RecordName(job.original, "cleanup job " + job.id);
      FoldersStand(before, image, job.id);
      if old(Indexed(layout, image)) {
        IndexedSurvives(layout, old(image), image, job.id);
      }
      if end == Cut {
        return Cut;
      }
      var alive := Spend();
      if !alive {
        return Cut;
      }
      if job.id in image.folders {
        return Refused;
      }
      image := image.(folders := image.folders[job.id := map[]]);
      assert PathKey(job.original) in NameKeys(job.original);
      ghost var made := image;
      FolderMade(before, made, job.id);
      end := Write(job);
      ChangedTwice(before, made, image, job.id);
      if old(Indexed(layout, image)) {
        IndexedSurvives(layout, old(image), image, job.id);
      }
    }

    /** Save: the record is republished whole, or left as it was. */
    method Save(job: Job) returns (end: End)
      modifies this`image, this`life
      ensures image.names == old(image.names) && image.areas == old(image.areas)
      ensures TreesKept(old(image), image) && OnlyFolder(old(image), image, job.id)
      ensures RecordOf(image, job.id) == old(RecordOf(image, job.id)) || RecordOf(image, job.id) == Some(job)
      ensures end == Refused <==> !Check(layout, job) || job.id !in old(image.folders)
      ensures end == Refused ==> image == old(image)
      ensures end == Cut <==> Check(layout, job) && job.id in old(image.folders) && old(life) < 3
      ensures end == Cut ==> life == 0
      ensures end == Done ==> Loadable(layout, image, job.id) == Some(job)
      ensures old(Indexed(layout, image)) && PathKey(job.original) in old(image.names) ==> Indexed(layout, image)
    {
      hide Indexed;
      if !Check(layout, job) {
        return Refused;
      }
      end := Write(job);
      if old(Indexed(layout, image)) && PathKey(job.original) in old(image.names) {
        IndexedSurvives(layout, old(image), image, job.id);
      }
    }

    /** discard: a folder's disposable entries, then the folder itself; refused while it holds anything else. */
    method DiscardFolder(id: string) returns (end: End)
      modifies this`image, this`life
      ensures NamesKept(old(image), image) && image.names == old(image.names) && image.areas == old(image.areas)
      ensures OnlyFolder(old(image), image, id) && TreesKept(old(image), image)
      ensures RecordOf(image, id) == old(RecordOf(image, id)) || RecordOf(image, id) == None
      ensures PayloadsKept(old(image), image)
      ensures HoldsPayload(old(image), id) ==> end == Refused
      ensures end == Refused <==> !CanDiscard(layout, old(image), id)
      ensures end == Refused ==> image == old(image)
      ensures end == Done ==> id !in image.folders
      ensures end == Cut <==> CanDiscard(layout, old(image), id) && old(life) < FolderCost(old(image), id)
      ensures end == Cut ==> life == 0
      ensures end == Done ==> life == old(life) - FolderCost(old(image), id)
      ensures end == Refused ==> life == old(life)
    {
      ghost var before := image;
      NothingChanged(before);
      if HoldsPayload(image, id) {
        PayloadIsNotDisposable(image, id);
      }
      if !layout.isJobId(id) {
        return Refused;
      }
      if id !in image.folders {
        return Done;
      }
      if exists name :: name in image.folders[id] && !Disposable(name) {
        return Refused;
      }
      end := RemoveFolder(id);
      PayloadsStay(before, image);
    }

    /** The entries of a folder, one after another, and then the folder. */
    method RemoveFolder(id: string) returns (end: End)
      requires id in image.folders && AllDisposable(image.folders[id])
      modifies this`image, this`life
      ensures end != Refused && image.names == old(image.names) && image.areas == old(image.areas)
      ensures OnlyFolder(old(image), image, id) && TreesKept(old(image), image)
      ensures RecordOf(image, id) == old(RecordOf(image, id)) || RecordOf(image, id) == None
      ensures end == Done ==> id !in image.folders
      ensures end == Cut <==> old(life) < FolderCost(old(image), id)
      ensures life == if end == Cut then 0 else old(life) - FolderCost(old(image), id)
    {
      hide Disposable, Litter, OnlyFolder, TreesKept, RecordOf;
      var was, rest := image, image.folders[id];
      FolderReplaced(was, id, rest);
      while rest != map[]
        invariant rest.Keys <= was.folders[id].Keys && image == was.(folders := was.folders[id := rest])
        invariant forall name :: name in rest ==> rest[name] == was.folders[id][name]
        invariant life + |was.folders[id]| == old(life) + |rest|
        decreases |rest|
      {
        var name :| name in rest;
        FolderReplaced(was, id, rest);
        var alive := Spend();
        if !alive {
          return Cut;
        }
        OneEntryLess(rest, name);
        rest := rest - {name};
        image := was.(folders := was.folders[id := rest]);
      }
      FolderReplaced(was, id, rest);
      FolderGone(was, id);
      var alive := Spend();
      if !alive {
        return Cut;
      }
      image := was.(folders := was.folders - {id});
      return Done;
    }

    /** Discard: the job's spool area, if it has one and it is empty, then its folder. */
    method Discard(job: Job) returns (end: End)
      modifies this`image, this`life
      ensures NamesKept(old(image), image) && OnlyFolder(old(image), image, job.id) && TreesKept(old(image), image)
      ensures RecordOf(image, job.id) == old(RecordOf(image, job.id)) || RecordOf(image, job.id) == None
      ensures old(Indexed(layout, image)) ==> Indexed(layout, image)
      ensures end == Refused ==> image.folders == old(image.folders)
      ensures PayloadsKept(old(image), image)
      ensures HoldsPayload(old(image), job.id) ==>
                end != Done && (end == Cut ==> old(life) < AreaCost(layout, old(image), job))
      ensures end != Cut ==> (end == Refused <==> !layout.isJobId(job.id) || HoldsTree(layout, old(image), job))
      ensures end == Cut <==>
                var area := AreaCost(layout, old(image), job);
                && layout.isJobId(job.id) && !AreaFilled(layout, old(image), job)
                && (old(life) < area
                    || (CanDiscard(layout, old(image), job.id)
                        && old(life) < area + FolderCost(old(image), job.id)))
      ensures end == Cut ==> life == 0
      ensures end == Done ==>
                job.id !in image.folders && (ElsewhereArea(layout, job) ==> Dir(job.payload) !in image.areas)
      ensures forall p :: p in old(image.areas) && p !in image.areas ==>
                ElsewhereArea(layout, job) && p == Dir(job.payload) && old(image.areas[p]) == {}
    {
      hide Check, Indexed, Disposable, Litter, AllDisposable, PayloadsKept;
      NothingChanged(image);
      if !layout.isJobId(job.id) {
        return Refused;
      }
      ghost var before := image;
      end := DiscardArea(job);
      if end == Done {
        end := DiscardFolder(job.id);
      }
      PayloadsStay(before, image);
      if old(Indexed(layout, image)) {
        IndexedSurvives(layout, old(image), image, job.id);
      }
    }

    /** The job's spool area, when it has one: removed when it is empty. */
    method DiscardArea(job: Job) returns (end: End)
      modifies this`image, this`life
      ensures image.folders == old(image.folders) && image.names == old(image.names)
      ensures end == Refused <==> AreaFilled(layout, old(image), job)
      ensures end == Cut <==> !AreaFilled(layout, old(image), job) && old(life) < AreaCost(layout, old(image), job)
      ensures end == Cut ==> life == 0
      ensures end == Done ==> life == old(life) - AreaCost(layout, old(image), job)
      ensures image.areas ==
                if end == Done && ElsewhereArea(layout, job) then old(image.areas) - {Dir(job.payload)}
                else old(image.areas)
    {
      if job.payload != [] && Dir(job.payload) != layout.jobs + [job.id] {
        var area := Dir(job.payload);
        if area in image.areas {
          if image.areas[area] != {} {
            return Refused;
          }
          var alive := Spend();
          if !alive {
            return Cut;
          }
          image := image.(areas := image.areas - {area});
        }
      }
      return Done;
    }

    /** One folder of Load: its record when it loads, whether it is damaged, and an abandoned one removed. */
    method LoadFolder(id: string) returns (end: End, record: Option<Job>, bad: bool)
      requires id in image.folders
      modifies this`image, this`life
      ensures end != Refused && image.names == old(image.names) && TreesKept(old(image), image)
      ensures OnlyFolder(old(image), image, id) && forall other :: RecordOf(image, other) == old(RecordOf(image, other))
      ensures end == Cut ==> life == 0 && old(life) < |old(image.folders[id])| + 1
      ensures end == Done ==>
                && old(life) <= life + |old(image.folders[id])| + 1
                && record == Loadable(layout, old(image), id)
                && (bad <==> IsDamaged(layout, old(image), id))
                && (id in image.folders <==> RECORD_NAME in old(image.folders[id]) || bad)
    {
      hide Disposable, Litter, Check;
      if RECORD_NAME !in image.folders[id] {
        ghost var was := image;
        end := DiscardFolder(id);
        ForgettingKeepsRecords(was, was, image, id);
        return if end == Cut then Cut else Done, None, end == Refused;
      }
      record := Loadable(layout, image, id);
      return Done, record, record.None?;
    }

    /** Load: every job record in queue order, and the folders that are damaged. A folder with no record
        and nothing else of worth is one Create was cut off in, and goes. */
    method Load() returns (end: End, jobs: seq<Job>, damaged: set<string>)
      modifies this`image, this`life
      ensures end != Refused && NamesKept(old(image), image) && TreesKept(old(image), image)
      ensures forall id :: RecordOf(image, id) == old(RecordOf(image, id))
      ensures old(Indexed(layout, image)) ==> Indexed(layout, image)
      ensures end == Cut ==> life == 0 && old(life) < Clutter(old(image.folders))
      ensures PayloadsKept(old(image), image)
      ensures end == Done ==> forall id ::
                HoldsPayload(old(image), id) && RECORD_NAME !in old(image.folders[id]) ==> id in damaged
      ensures end == Done ==>
                && InQueueOrder(jobs)
                && DistinctIds(jobs)
                && (forall job :: job in jobs <==> exists id :: Loadable(layout, old(image), id) == Some(job))
                && (forall id :: id in damaged <==> IsDamaged(layout, old(image), id))
                && (forall id :: id in image.folders <==>
                      id in old(image.folders) && (RECORD_NAME in old(image.folders[id]) || id in damaged))
    {
      hide Check, Clutter, RecordOf, IsDamaged, TreesKept, Indexed, Loadable, Swept, Queued, OnlyFolder, PayloadsKept,
           HoldsPayload;
      jobs, damaged := [], {};
      ghost var before := image;
      NothingSwept(layout, before);
      var todo := image.folders.Keys;
      assert Only(before.folders, todo) == before.folders;
      while todo != {}
        invariant todo <= before.folders.Keys
        invariant Swept(layout, before, image, todo, damaged) && Queued(layout, before, todo, jobs)
        invariant old(life) + Clutter(Only(before.folders, todo)) <= life + Clutter(before.folders)
        decreases |todo|
      {
        var id :| id in todo;
        ghost var was := image;
        ClutterSplits(before.folders, todo, id);
        SweptSoFar(layout, before, was, todo, damaged, id);
        var record, bad;
        end, record, bad := LoadFolder(id);
        SweptOnwards(layout, before, was, image);
        if end == Cut {
          LoadKeepsIndexed(layout, before, image);
          PayloadsStay(before, image);
          return;
        }
        SweptOneMore(layout, before, was, image, todo, damaged, id, bad);
        QueuedOneMore(layout, before, todo, jobs, id);
        if record.Some? {
          jobs := Enqueued(record.value, jobs);
        }
        if bad {
          damaged := damaged + {id};
        }
        todo := todo - {id};
      }
      SweptAll(layout, before, image, damaged, jobs);
      LoadKeepsIndexed(layout, before, image);
      PayloadsStay(before, image);
      PayloadIsDamage(layout, before);
      return Done, jobs, damaged;
    }
  }

  lemma NothingChanged(a: Image)
    ensures TreesKept(a, a) && PayloadsKept(a, a)
  {
  }

  lemma PayloadIsDamage(layout: Layout, image: Image)
    ensures forall id :: HoldsPayload(image, id) && RECORD_NAME !in image.folders[id] ==> IsDamaged(layout, image, id)
  {
    forall id | HoldsPayload(image, id) && RECORD_NAME !in image.folders[id] ensures IsDamaged(layout, image, id) {
      PayloadIsNotDisposable(image, id);
    }
  }

  /** What Load has done to the disk once only the folders of todo are left: nothing but abandoned folders gone. */
  ghost predicate Swept(layout: Layout, before: Image, now: Image, todo: set<string>, damaged: set<string>) {
    && TreesKept(before, now) && now.names == before.names
    && (forall id :: id in todo ==>
          id in before.folders && id in now.folders && now.folders[id] == before.folders[id])
    && (forall id :: RecordOf(now, id) == RecordOf(before, id))
    && (forall id :: id in damaged <==> id !in todo && IsDamaged(layout, before, id))
    && (forall id :: id in now.folders <==>
          id in before.folders && (id in todo || RECORD_NAME in before.folders[id] || id in damaged))
  }

  /** The jobs loaded by then. */
  ghost predicate Queued(layout: Layout, before: Image, todo: set<string>, jobs: seq<Job>) {
    && InQueueOrder(jobs) && DistinctIds(jobs)
    && forall job :: job in jobs <==> job.id !in todo && Loadable(layout, before, job.id) == Some(job)
  }

  lemma NothingSwept(layout: Layout, before: Image)
    ensures Swept(layout, before, before, before.folders.Keys, {})
    ensures Queued(layout, before, before.folders.Keys, [])
  {
    NothingQueued();
    LoadsOwnName(layout, before);
    hide Check, Disposable, Litter, IsDamaged, Loadable;
  }

  lemma SweptSoFar(layout: Layout, before: Image, was: Image, todo: set<string>, damaged: set<string>, id: string)
    requires Swept(layout, before, was, todo, damaged) && id in todo
    ensures id in was.folders && was.folders[id] == before.folders[id]
    ensures was.names == before.names && TreesKept(before, was)
    ensures forall other :: RecordOf(was, other) == RecordOf(before, other)
    ensures Loadable(layout, was, id) == Loadable(layout, before, id)
  {
    hide Check, Disposable, Litter, TreesKept, RecordOf, IsDamaged;
    assert RecordOf(was, id) == RecordOf(before, id);
  }

  lemma SweptOnwards(layout: Layout, before: Image, was: Image, now: Image)
    requires TreesKept(before, was) && TreesKept(was, now)
    requires forall other :: RecordOf(was, other) == RecordOf(before, other)
    requires forall other :: RecordOf(now, other) == RecordOf(was, other)
    ensures TreesKept(before, now) && forall other :: RecordOf(now, other) == RecordOf(before, other)
  {
    hide Disposable, Litter, RecordOf;
    forall other ensures RecordOf(now, other) == RecordOf(before, other) {
      assert RecordOf(now, other) == RecordOf(was, other) && RecordOf(was, other) == RecordOf(before, other);
    }
  }

  lemma SweptOneMore(layout: Layout, before: Image, was: Image, now: Image, todo: set<string>, damaged: set<string>,
                     id: string, bad: bool)
    requires Swept(layout, before, was, todo, damaged) && id in todo && id in before.folders
    requires OnlyFolder(was, now, id) && now.names == was.names && TreesKept(before, now)
    requires forall other :: RecordOf(now, other) == RecordOf(before, other)
    requires id in was.folders && (bad <==> IsDamaged(layout, was, id))
    requires id in now.folders <==> RECORD_NAME in was.folders[id] || bad
    ensures Swept(layout, before, now, todo - {id}, if bad then damaged + {id} else damaged)
  {
    SameFolderLoads(layout, before, was, id);
    hide RecordOf, TreesKept, IsDamaged, Disposable, Litter;
  }

  lemma QueuedOneMore(layout: Layout, before: Image, todo: set<string>, jobs: seq<Job>, id: string)
    requires Queued(layout, before, todo, jobs) && id in todo
    ensures match Loadable(layout, before, id)
            case Some(job) => Queued(layout, before, todo - {id}, Enqueued(job, jobs))
            case None => Queued(layout, before, todo - {id}, jobs)
  {
    LoadsOwnName(layout, before);
    match Loadable(layout, before, id)
    case Some(job) =>
      QueueInserts(job, jobs);
      QueueStaysDistinct(job, jobs);
      hide InQueueOrder, DistinctIds, Enqueued, Loadable;
    case None => hide InQueueOrder, DistinctIds, Enqueued, Loadable;
  }

  lemma SweptAll(layout: Layout, before: Image, now: Image, damaged: set<string>, jobs: seq<Job>)
    requires Swept(layout, before, now, {}, damaged) && Queued(layout, before, {}, jobs)
    ensures TreesKept(before, now) && now.names == before.names
    ensures forall id :: RecordOf(now, id) == RecordOf(before, id)
    ensures forall id :: id in damaged <==> IsDamaged(layout, before, id)
    ensures forall id :: id in now.folders <==>
              id in before.folders && (RECORD_NAME in before.folders[id] || id in damaged)
    ensures InQueueOrder(jobs) && DistinctIds(jobs)
    ensures forall job :: job in jobs <==> exists id :: Loadable(layout, before, id) == Some(job)
  {
    LoadsOwnName(layout, before);
    hide InQueueOrder, DistinctIds, Loadable, IsDamaged, RecordOf, TreesKept;
    forall job ensures job in jobs <==> exists id :: Loadable(layout, before, id) == Some(job) {
      if id :| Loadable(layout, before, id) == Some(job) {
        assert job.id == id;
      }
    }
  }

  lemma SameFolderLoads(layout: Layout, a: Image, b: Image, id: string)
    requires id in a.folders && id in b.folders && a.folders[id] == b.folders[id]
    ensures Loadable(layout, a, id) == Loadable(layout, b, id)
    ensures IsDamaged(layout, a, id) <==> IsDamaged(layout, b, id)
  {
    hide Check;
  }

  /** A job loads only from the folder of its own name. */
  lemma LoadsOwnName(layout: Layout, image: Image)
    ensures forall id :: Loadable(layout, image, id).Some? ==>
              Loadable(layout, image, id).value.id == id && id in image.folders
    ensures forall id :: IsDamaged(layout, image, id) ==> id in image.folders
  {
    hide Check, Disposable, Litter;
  }

  /** Every entry of every folder, and every folder: the disk operations that would remove them all. */
  ghost function Clutter(folders: map<string, map<string, Content>>): nat {
    |Entries(folders)| + |folders|
  }

  ghost function Entries(folders: map<string, map<string, Content>>): set<(string, string)> {
    set id, name | id in folders && name in folders[id] :: (id, name)
  }

  function Only(folders: map<string, map<string, Content>>, ids: set<string>): map<string, map<string, Content>> {
    map id | id in folders && id in ids :: folders[id]
  }

  lemma ClutterSplits(folders: map<string, map<string, Content>>, ids: set<string>, id: string)
    requires id in ids && ids <= folders.Keys
    ensures Clutter(Only(folders, ids)) == Clutter(Only(folders, ids - {id})) + |folders[id]| + 1
  {
    var whole, rest := Only(folders, ids), Only(folders, ids - {id});
    assert whole.Keys == ids && rest.Keys == ids - {id};
    assert |whole| == |whole.Keys| && |rest| == |rest.Keys|;
    var own := set name | name in folders[id].Keys :: (id, name);
    assert Entries(whole) == Entries(rest) + own;
    assert Entries(rest) !! own;
    PairsCount(id, folders[id].Keys);
    assert |folders[id].Keys| == |folders[id]|;
  }

  lemma {:induction false} PairsCount(id: string, names: set<string>)
    ensures |set name | name in names :: (id, name)| == |names|
    decreases |names|
  {
    if names != {} {
      var x :| x in names;
      PairsCount(id, names - {x});
      assert (set name | name in names :: (id, name)) == (set name | name in names - {x} :: (id, name)) + {(id, x)};
    }
  }

  /** A job folder with nothing in it that may not be removed, or no folder. */
  predicate CanDiscard(layout: Layout, image: Image, id: string) {
    layout.isJobId(id) && (id in image.folders ==> AllDisposable(image.folders[id]))
  }

  /** The disk operations it takes to remove a folder, and a job's empty spool area. */
  function FolderCost(image: Image, id: string): nat {
    if id in image.folders then |image.folders[id]| + 1 else 0
  }

  function AreaCost(layout: Layout, image: Image, job: Job): nat {
    if ElsewhereArea(layout, job) && Dir(job.payload) in image.areas then 1 else 0
  }

  predicate AreaFilled(layout: Layout, image: Image, job: Job) {
    ElsewhereArea(layout, job) && Dir(job.payload) in image.areas && image.areas[Dir(job.payload)] != {}
  }

  predicate AllDisposable(folder: map<string, Content>) {
    forall name :: name in folder ==> Disposable(name)
  }

  /** The job's payload sits outside its own folder, in an area of another volume's spool. */
  predicate ElsewhereArea(layout: Layout, job: Job) {
    job.payload != [] && Dir(job.payload) != layout.jobs + [job.id]
  }

  /** The job still has something Discard may not remove: in its spool area, or in its folder. */
  predicate HoldsTree(layout: Layout, image: Image, job: Job) {
    || AreaFilled(layout, image, job)
    || (job.id in image.folders && !AllDisposable(image.folders[job.id]))
  }

  /** A folder Load reports instead of a job: a record that does not load, or no record and something
      that is not Load's to remove. */
  ghost predicate IsDamaged(layout: Layout, image: Image, id: string) {
    id in image.folders
    && (if RECORD_NAME in image.folders[id] then Loadable(layout, image, id).None?
        else !layout.isJobId(id) || !AllDisposable(image.folders[id]))
  }

  ghost predicate InQueueOrder(jobs: seq<Job>) {
    forall i, j :: 0 <= i < j < |jobs| ==> jobs[i].seqno <= jobs[j].seqno
  }

  /** The queue with one more job in its place. */
  function Enqueued(job: Job, jobs: seq<Job>): seq<Job> {
    if jobs == [] then [job]
    else if jobs[|jobs| - 1].seqno <= job.seqno then jobs + [job]
    else Enqueued(job, jobs[..|jobs| - 1]) + [jobs[|jobs| - 1]]
  }

  lemma {:induction false} QueueInserts(job: Job, jobs: seq<Job>)
    requires InQueueOrder(jobs)
    ensures InQueueOrder(Enqueued(job, jobs)) && |Enqueued(job, jobs)| == |jobs| + 1
    ensures forall x :: x in Enqueued(job, jobs) <==> x in jobs || x == job
    decreases |jobs|
  {
    if jobs != [] {
      var front, last := jobs[..|jobs| - 1], jobs[|jobs| - 1];
      assert jobs == front + [last];
      if last.seqno > job.seqno {
        QueueInserts(job, front);
        var inserted := Enqueued(job, front);
        forall i | 0 <= i < |inserted| ensures inserted[i].seqno <= last.seqno {
          assert inserted[i] in inserted;
        }
      }
    }
  }

  ghost predicate DistinctIds(jobs: seq<Job>) {
    forall i, j :: 0 <= i < j < |jobs| ==> jobs[i].id != jobs[j].id
  }

  lemma {:induction false} QueueStaysDistinct(job: Job, jobs: seq<Job>)
    requires InQueueOrder(jobs) && DistinctIds(jobs) && forall x :: x in jobs ==> x.id != job.id
    ensures DistinctIds(Enqueued(job, jobs))
    decreases |jobs|
  {
    if jobs != [] {
      var front, last := jobs[..|jobs| - 1], jobs[|jobs| - 1];
      assert jobs == front + [last];
      LastIdIsNew(jobs);
      if last.seqno > job.seqno {
        QueueStaysDistinct(job, front);
        QueueInserts(job, front);
        hide InQueueOrder;
        assert Enqueued(job, jobs) == Enqueued(job, front) + [last];
        assert forall x :: x in Enqueued(job, front) ==> x.id != last.id;
      }
    }
  }

  lemma NothingQueued()
    ensures InQueueOrder([]) && DistinctIds([])
  {
  }

  lemma LastIdIsNew(jobs: seq<Job>)
    requires InQueueOrder(jobs) && DistinctIds(jobs) && jobs != []
    ensures var front, last := jobs[..|jobs| - 1], jobs[|jobs| - 1];
      InQueueOrder(front) && DistinctIds(front) && forall x :: x in front ==> x.id != last.id
  {
  }

  lemma ForgettingKeepsRecords(before: Image, was: Image, now: Image, id: string)
    requires OnlyFolder(was, now, id) && RecordOf(was, id).None?
    requires RecordOf(now, id) == RecordOf(was, id) || RecordOf(now, id) == None
    requires forall other :: RecordOf(was, other) == RecordOf(before, other)
    requires TreesKept(before, was) && TreesKept(was, now)
    ensures forall other :: RecordOf(now, other) == RecordOf(before, other)
    ensures TreesKept(before, now)
  {
    hide Disposable, Litter;
    forall other ensures RecordOf(now, other) == RecordOf(before, other) {
      assert RecordOf(was, other) == RecordOf(before, other);
    }
  }

  lemma LoadKeepsIndexed(layout: Layout, a: Image, b: Image)
    requires NamesKept(a, b) && forall id :: RecordOf(b, id) == RecordOf(a, id)
    ensures Indexed(layout, a) ==> Indexed(layout, b)
  {
    hide Check;
    forall id ensures Loadable(layout, b, id) == Loadable(layout, a, id) {
      assert RecordOf(b, id) == RecordOf(a, id);
    }
  }
}
