/** One key, one job, whatever the cache says and whoever arrives at once. */
module IdempotencyFacts {
  import opened Wrappers
  import opened Idempotency

  /** The job is the org's own, or one that a request under this key could see in another org. */
  ghost predicate Vouched(w: World, slot: Slot, row: Row) {
    row.org == slot.org || exists pid :: pid in w.processes && Under(w.processes[pid].request, slot) && Sees(w.processes[pid].request, row)
  }

  predicate Under(r: Request, slot: Slot) { r.key.Some? && SlotOf(r) == slot }

  /** A job that requests under this key can come to name, with its own fingerprint. */
  ghost predicate Stands(fp: Fingerprinter, w: World, slot: Slot, job: nat, fingerprint: Fingerprint) {
    && job in w.jobs && w.jobs[job].key == Some(slot.name)
    && Stored(fp, w.jobs[job]) == fingerprint
    && Vouched(w, slot, w.jobs[job])
  }

  /** The unique index: each org's keyed rows, and nothing else. */
  predicate IndexSound(w: World) {
    && (forall slot :: slot in w.index ==>
          w.index[slot] in w.jobs && w.jobs[w.index[slot]].org == slot.org && w.jobs[w.index[slot]].key == Some(slot.name))
    && forall id :: id in w.jobs && w.jobs[id].key.Some? ==>
         Slot(w.jobs[id].org, w.jobs[id].key.value) in w.index && w.index[Slot(w.jobs[id].org, w.jobs[id].key.value)] == id
  }

  ghost predicate CacheSound(fp: Fingerprinter, w: World) {
    forall slot, record :: slot in w.told && record in w.told[slot] ==> Stands(fp, w, slot, record.job, record.fingerprint)
  }

  ghost predicate ProcessSound(fp: Fingerprinter, w: World, p: Process) {
    match p.progress
    case FetchesJob(fingerprint, job) => p.request.key.Some? && Stands(fp, w, SlotOf(p.request), job, fingerprint)
    case Remembers(fingerprint, job, _) => p.request.key.Some? && Stands(fp, w, SlotOf(p.request), job, fingerprint)
    case _ => true
  }

  /** Some job that can be named under this key is fingerprinted otherwise. */
  ghost predicate OtherStands(fp: Fingerprinter, w: World, slot: Slot, fingerprint: Fingerprint) {
    exists job, other :: Stands(fp, w, slot, job, other) && other != fingerprint
  }

  ghost predicate ReplySound(fp: Fingerprinter, w: World, r: Reply) {
    r.request.key.Some? ==>
      && (r.answer.Success? ==> Stands(fp, w, SlotOf(r.request), r.answer.job, r.fingerprint))
      && (r.answer.Conflict? ==> OtherStands(fp, w, SlotOf(r.request), r.fingerprint))
  }

  ghost predicate Sound(fp: Fingerprinter, w: World) {
    && IndexSound(w)
    && CacheSound(fp, w)
    && (forall pid :: pid in w.processes ==> ProcessSound(fp, w, w.processes[pid]))
    && forall i :: 0 <= i < |w.replies| ==> ReplySound(fp, w, w.replies[i])
  }

  /** The table and the list of requests only grow: what stood still stands. */
  predicate Grows(w: World, v: World) {
    && (forall id :: id in w.jobs ==> id in v.jobs && v.jobs[id] == w.jobs[id])
    && (forall slot :: slot in w.index ==> slot in v.index && v.index[slot] == w.index[slot])
    && forall pid :: pid in w.processes ==> pid in v.processes && v.processes[pid].request == w.processes[pid].request
  }

  lemma StandsStill(fp: Fingerprinter, w: World, v: World, slot: Slot, job: nat, fingerprint: Fingerprint)
    requires Grows(w, v) && Stands(fp, w, slot, job, fingerprint)
    ensures Stands(fp, v, slot, job, fingerprint)
  {
    hide Stored, Under, Sees;
    var row := w.jobs[job];
    if row.org != slot.org {
      var pid :| pid in w.processes && Under(w.processes[pid].request, slot) && Sees(w.processes[pid].request, row);
      assert pid in v.processes;
    }
  }

  lemma ReplyStillSound(fp: Fingerprinter, w: World, v: World, r: Reply)
    requires Grows(w, v) && ReplySound(fp, w, r)
    ensures ReplySound(fp, v, r)
  {
    hide Stands, Grows;
    if r.request.key.Some? {
      var slot := SlotOf(r.request);
      if r.answer.Success? { StandsStill(fp, w, v, slot, r.answer.job, r.fingerprint); }
      if r.answer.Conflict? {
        var job, other :| Stands(fp, w, slot, job, other) && other != r.fingerprint;
        StandsStill(fp, w, v, slot, job, other);
      }
    }
  }

  lemma ProcessStillSound(fp: Fingerprinter, w: World, v: World, p: Process)
    requires Grows(w, v) && ProcessSound(fp, w, p)
    ensures ProcessSound(fp, v, p)
  {
    hide Stands, Grows;
    match p.progress {
      case FetchesJob(fingerprint, job) => StandsStill(fp, w, v, SlotOf(p.request), job, fingerprint);
      case Remembers(fingerprint, job, _) => StandsStill(fp, w, v, SlotOf(p.request), job, fingerprint);
      case _ =>
    }
  }

  /** The table may grow and the cache be told more, if what it is told stands. */
  lemma SurroundingsKeep(fp: Fingerprinter, w: World, v: World)
    requires Sound(fp, w) && Grows(w, v) && IndexSound(v) && CacheSound(fp, v)
    requires v.processes == w.processes && v.replies == w.replies
    ensures Sound(fp, v)
  {
    hide Grows, Stands, ProcessSound, ReplySound;
    forall pid | pid in v.processes ensures ProcessSound(fp, v, v.processes[pid]) {
      ProcessStillSound(fp, w, v, w.processes[pid]);
    }
    forall i | 0 <= i < |v.replies| ensures ReplySound(fp, v, v.replies[i]) {
      ReplyStillSound(fp, w, v, w.replies[i]);
    }
  }

  lemma SameTable(fp: Fingerprinter, w: World, v: World)
    requires CacheSound(fp, w) && IndexSound(w) && v.jobs == w.jobs && v.index == w.index && v.told == w.told
    requires forall pid :: pid in w.processes ==> pid in v.processes && v.processes[pid].request == w.processes[pid].request
    ensures CacheSound(fp, v) && IndexSound(v) && Grows(w, v)
  {
    hide Stands;
    assert Grows(w, v);
    hide Grows;
    forall slot, record | slot in v.told && record in v.told[slot] ensures Stands(fp, v, slot, record.job, record.fingerprint) {
      StandsStill(fp, w, v, slot, record.job, record.fingerprint);
    }
  }

  /** One request moves on, to somewhere sound. */
  lemma GoesKeeps(fp: Fingerprinter, w: World, pid: nat, progress: Progress)
    requires Sound(fp, w) && At(w, pid) && ProcessSound(fp, w, w.processes[pid].(progress := progress))
    ensures Sound(fp, Goes(w, pid, progress)) && Grows(w, Goes(w, pid, progress))
  {
    hide Stands, ProcessSound, ReplySound, Grows, CacheSound, IndexSound;
    var v := Goes(w, pid, progress);
    SameTable(fp, w, v);
    forall p | p in v.processes ensures ProcessSound(fp, v, v.processes[p]) {
      ProcessStillSound(fp, w, v, v.processes[p]);
    }
    forall i | 0 <= i < |v.replies| ensures ReplySound(fp, v, v.replies[i]) {
      ReplyStillSound(fp, w, v, w.replies[i]);
    }
  }

  /** One request is answered, soundly. */
  lemma RepliesKeeps(fp: Fingerprinter, w: World, pid: nat, fingerprint: Fingerprint, answer: Answer)
    requires Sound(fp, w) && At(w, pid) && ReplySound(fp, w, Reply(w.processes[pid].request, fingerprint, answer))
    ensures Sound(fp, Replies(w, pid, fingerprint, answer)) && Grows(w, Replies(w, pid, fingerprint, answer))
  {
    GoesKeeps(fp, w, pid, Finished);
    hide Stands, ProcessSound, ReplySound, Grows, CacheSound, IndexSound;
    var mid := Goes(w, pid, Finished);
    var v := Replies(w, pid, fingerprint, answer);
    SameTable(fp, mid, v);
    SameTable(fp, w, v);
    forall p | p in v.processes ensures ProcessSound(fp, v, v.processes[p]) {
      ProcessStillSound(fp, mid, v, v.processes[p]);
    }
    forall i | 0 <= i < |v.replies| ensures ReplySound(fp, v, v.replies[i]) {
      ReplyStillSound(fp, w, v, v.replies[i]);
    }
  }

  lemma DefaultsKeep(fp: Fingerprinter, w: World, pid: nat, cached: Option<Options>, readFrom: Option<string>)
    requires Sound(fp, w) && At(w, pid)
    ensures var v := AfterDefaults(fp, w, pid, cached, readFrom); Sound(fp, v) && Grows(w, v)
  {
    var r := w.processes[pid].request;
    var defaults := if cached.Some? then cached.value
      else if readFrom.Some? then DefaultsOf(w, Slot(readFrom.value, r.project))
      else map[];
    var mid := w.(toldDefaults := w.toldDefaults[ProjectOf(r) := ToldDefaults(w, ProjectOf(r)) + {defaults}]);
    var progress := ReadsCache(fp(r.script, Resolved(defaults, r.options)));
    SameTable(fp, w, mid);
    assert ProcessSound(fp, mid, mid.processes[pid].(progress := progress));
    hide Stands, ProcessSound, ReplySound, CacheSound, IndexSound, Sound;
    SurroundingsKeep(fp, w, mid);
    GoesKeeps(fp, mid, pid, progress);
  }

  lemma CacheKeeps(fp: Fingerprinter, w: World, pid: nat, cached: Option<Record>)
    requires Sound(fp, w) && Enabled(w, Cache(pid, cached))
    ensures var v := AfterCache(w, pid, w.processes[pid].progress.fingerprint, cached); Sound(fp, v) && Grows(w, v)
  {
    hide Stands;
    var p := w.processes[pid];
    var fingerprint := p.progress.fingerprint;
    if cached.Some? {
      var slot := SlotOf(p.request);
      assert Stands(fp, w, slot, cached.value.job, cached.value.fingerprint);
      if cached.value.fingerprint != fingerprint {
        assert OtherStands(fp, w, slot, fingerprint);
        RepliesKeeps(fp, w, pid, fingerprint, Conflict);
      } else {
        GoesKeeps(fp, w, pid, FetchesJob(fingerprint, cached.value.job));
      }
    } else {
      GoesKeeps(fp, w, pid, FindsByKey(fingerprint));
    }
  }

  lemma FetchKeeps(fp: Fingerprinter, w: World, pid: nat)
    requires Sound(fp, w) && Enabled(w, Fetch(pid))
    ensures var v := AfterFetch(w, pid, w.processes[pid].progress.fingerprint, w.processes[pid].progress.job);
      Sound(fp, v) && Grows(w, v)
  {
    hide Stands;
    var p := w.processes[pid];
    assert ProcessSound(fp, w, p);
    RepliesKeeps(fp, w, pid, p.progress.fingerprint,
      if p.progress.job in w.jobs && Sees(p.request, w.jobs[p.progress.job]) then Success(p.progress.job, 200) else Error);
  }

  /** What a lookup finds can be named under the key, because the request that found it sees it. */
  lemma FoundStands(fp: Fingerprinter, w: World, pid: nat, job: nat)
    requires At(w, pid) && Answers(w, w.processes[pid].request, job)
    ensures Stands(fp, w, SlotOf(w.processes[pid].request), job, Stored(fp, w.jobs[job]))
  {
    assert Under(w.processes[pid].request, SlotOf(w.processes[pid].request));
  }

  lemma FindKeeps(fp: Fingerprinter, w: World, pid: nat, found: Option<nat>)
    requires Sound(fp, w) && Enabled(w, Find(pid, found))
    ensures var v := AfterFind(fp, w, pid, w.processes[pid].progress.fingerprint, found); Sound(fp, v) && Grows(w, v)
  {
    hide Stands, Stored, Sound;
    var p := w.processes[pid];
    var slot, fingerprint := SlotOf(p.request), p.progress.fingerprint;
    if found.None? {
      GoesKeeps(fp, w, pid, Creates(fingerprint));
    } else {
      FoundStands(fp, w, pid, found.value);
      if Stored(fp, w.jobs[found.value]) != fingerprint {
        assert OtherStands(fp, w, slot, fingerprint);
        RepliesKeeps(fp, w, pid, fingerprint, Conflict);
      } else {
        GoesKeeps(fp, w, pid, Remembers(fingerprint, found.value, 200));
      }
    }
  }

  lemma SubmitGrows(w: World, r: Request, newId: nat)
    requires IndexSound(w) && newId !in w.jobs
    ensures var (v, job) := Submitted(w, r, newId);
      && Grows(w, v) && IndexSound(v) && job in v.jobs
      && v.processes == w.processes && v.replies == w.replies && v.told == w.told
      && (r.key.Some? ==> SlotOf(r) in v.index && v.index[SlotOf(r)] == job)
  {
    hide Resolved, DefaultsOf, IndexSound;
    if r.key.Some? && SlotOf(r) in w.index {
      IndexNames(w, SlotOf(r));
    } else {
      var row := Row(r.org, r.key, r.script, Resolved(DefaultsOf(w, ProjectOf(r)), r.options));
      NewRowIsIndexed(w, Submitted(w, r, newId).0, row, newId);
    }
  }

  lemma IndexNames(w: World, slot: Slot)
    requires IndexSound(w) && slot in w.index
    ensures w.index[slot] in w.jobs && w.jobs[w.index[slot]].org == slot.org && w.jobs[w.index[slot]].key == Some(slot.name)
  {
  }

  lemma NewRowIsIndexed(w: World, v: World, row: Row, newId: nat)
    requires IndexSound(w) && newId !in w.jobs && v.jobs == w.jobs[newId := row]
    requires row.key.Some? ==> Slot(row.org, row.key.value) !in w.index
    requires v.index == if row.key.Some? then w.index[Slot(row.org, row.key.value) := newId] else w.index
    ensures IndexSound(v)
  {
    forall id | id in v.jobs && v.jobs[id].key.Some?
      ensures Slot(v.jobs[id].org, v.jobs[id].key.value) in v.index && v.index[Slot(v.jobs[id].org, v.jobs[id].key.value)] == id
    {
      if id in w.jobs { assert w.index[Slot(w.jobs[id].org, w.jobs[id].key.value)] == id; }
    }
  }

  lemma SubmitKeeps(fp: Fingerprinter, w: World, r: Request, newId: nat)
    requires Sound(fp, w) && newId !in w.jobs
    ensures var (v, job) := Submitted(w, r, newId);
      && Sound(fp, v) && Grows(w, v) && job in v.jobs
      && v.processes == w.processes && v.replies == w.replies
      && (r.key.Some? ==> SlotOf(r) in v.index && v.index[SlotOf(r)] == job)
  {
    hide Stands, ProcessSound, ReplySound, Submitted, Grows, IndexSound;
    var (v, job) := Submitted(w, r, newId);
    SubmitGrows(w, r, newId);
    forall slot, record | slot in v.told && record in v.told[slot] ensures Stands(fp, v, slot, record.job, record.fingerprint) {
      assert Stands(fp, w, slot, record.job, record.fingerprint);
      StandsStill(fp, w, v, slot, record.job, record.fingerprint);
    }
    SurroundingsKeep(fp, w, v);
  }

  lemma CreateKeeps(fp: Fingerprinter, w: World, pid: nat, newId: nat)
    requires Sound(fp, w) && Enabled(w, Create(pid, newId))
    ensures var v := AfterCreate(fp, w, pid, w.processes[pid].progress.fingerprint, newId);
      Sound(fp, v) && Grows(w, v)
  {
    hide Submitted, ProcessSound, CacheSound, Stands, Grows, ReplySound, IndexSound, Stored;
    var p := w.processes[pid];
    var r, fingerprint := p.request, p.progress.fingerprint;
    SubmitKeeps(fp, w, r, newId);
    var (mid, job) := Submitted(w, r, newId);
    if r.key.None? {
      KeylessReply(fp, mid, r, fingerprint, job);
      RepliesKeeps(fp, mid, pid, fingerprint, Success(job, 202));
    } else {
      NewlyStands(fp, mid, r, fingerprint, job);
      if Stored(fp, mid.jobs[job]) != fingerprint {
        RepliesKeeps(fp, mid, pid, fingerprint, Conflict);
      } else {
        GoesKeeps(fp, mid, pid, Remembers(fingerprint, job, 202));
      }
    }
    GrowsTwice(w, mid, AfterCreate(fp, w, pid, fingerprint, newId));
  }

  lemma GrowsTwice(u: World, w: World, v: World)
    requires Grows(u, w) && Grows(w, v)
    ensures Grows(u, v)
  {
  }

  lemma KeylessReply(fp: Fingerprinter, w: World, r: Request, fingerprint: Fingerprint, job: nat)
    requires r.key.None?
    ensures ReplySound(fp, w, Reply(r, fingerprint, Success(job, 202)))
  {
  }

  lemma NewlyStands(fp: Fingerprinter, w: World, r: Request, fingerprint: Fingerprint, job: nat)
    requires IndexSound(w) && r.key.Some? && SlotOf(r) in w.index && w.index[SlotOf(r)] == job
    ensures Stored(fp, w.jobs[job]) != fingerprint ==> ReplySound(fp, w, Reply(r, fingerprint, Conflict))
    ensures Stored(fp, w.jobs[job]) == fingerprint ==> ProcessSound(fp, w, Process(r, Remembers(fingerprint, job, 202)))
  {
    hide Stored;
    assert Stands(fp, w, SlotOf(r), job, Stored(fp, w.jobs[job]));
    assert Stored(fp, w.jobs[job]) != fingerprint ==> OtherStands(fp, w, SlotOf(r), fingerprint);
  }

  lemma RememberKeeps(fp: Fingerprinter, w: World, pid: nat)
    requires Sound(fp, w) && Enabled(w, Remember(pid))
    ensures var p := w.processes[pid].progress;
      var v := AfterRemember(w, pid, p.fingerprint, p.job, p.status); Sound(fp, v) && Grows(w, v)
  {
    hide ReplySound, Stored, Stands;
    var p := w.processes[pid];
    assert ProcessSound(fp, w, p);
    var slot := SlotOf(p.request);
    var mid := w.(told := w.told[slot := Told(w, slot) + {Record(p.progress.job, p.progress.fingerprint)}]);
    assert Grows(w, mid) && IndexSound(mid);
    hide Grows, IndexSound;
    forall s, record | s in mid.told && record in mid.told[s] ensures Stands(fp, mid, s, record.job, record.fingerprint) {
      assert Stands(fp, w, s, record.job, record.fingerprint);
      StandsStill(fp, w, mid, s, record.job, record.fingerprint);
    }
    StandsStill(fp, w, mid, slot, p.progress.job, p.progress.fingerprint);
    SurroundingsKeep(fp, w, mid);
    SuccessStands(fp, mid, p.request, p.progress.fingerprint, p.progress.job, p.progress.status);
    RepliesKeeps(fp, mid, pid, p.progress.fingerprint, Success(p.progress.job, p.progress.status));
    GrowsTwice(w, mid, Replies(mid, pid, p.progress.fingerprint, Success(p.progress.job, p.progress.status)));
  }

  lemma SuccessStands(fp: Fingerprinter, w: World, r: Request, fingerprint: Fingerprint, job: nat, status: nat)
    requires r.key.Some? && Stands(fp, w, SlotOf(r), job, fingerprint)
    ensures ReplySound(fp, w, Reply(r, fingerprint, Success(job, status)))
  {
  }

  lemma ArriveKeeps(fp: Fingerprinter, w: World, pid: nat, r: Request)
    requires Sound(fp, w) && Enabled(w, Arrive(pid, r))
    ensures Sound(fp, Step(fp, w, Arrive(pid, r))) && Grows(w, Step(fp, w, Arrive(pid, r)))
  {
    hide Stands, ReplySound, CacheSound, IndexSound;
    var v := Step(fp, w, Arrive(pid, r));
    SameTable(fp, w, v);
    assert ProcessSound(fp, v, v.processes[pid]);
    forall p | p in v.processes && p != pid ensures ProcessSound(fp, v, v.processes[p]) {
      ProcessStillSound(fp, w, v, w.processes[p]);
    }
    forall i | 0 <= i < |v.replies| ensures ReplySound(fp, v, v.replies[i]) {
      ReplyStillSound(fp, w, v, w.replies[i]);
    }
  }

  lemma StepKeeps(fp: Fingerprinter, w: World, e: Event)
    requires Sound(fp, w) && Enabled(w, e)
    ensures Sound(fp, Step(fp, w, e)) && Grows(w, Step(fp, w, e))
  {
    hide Sound, Grows, AfterDefaults, AfterCache, AfterFetch, AfterFind, AfterCreate, AfterRemember, ProcessSound;
    match e {
      case Arrive(pid, r) => ArriveKeeps(fp, w, pid, r);
      case SetDefaults(project, options) => TableUntouched(fp, w, project, options);
      case Defaults(pid, cached, readFrom) => DefaultsKeep(fp, w, pid, cached, readFrom);
      case Cache(pid, answer) => CacheKeeps(fp, w, pid, answer);
      case Fetch(pid) => FetchKeeps(fp, w, pid);
      case Find(pid, found) => FindKeeps(fp, w, pid, found);
      case Create(pid, newId) => CreateKeeps(fp, w, pid, newId);
      case Remember(pid) => RememberKeeps(fp, w, pid);
      case Fails(pid) =>
        FinishedIsSound(fp, w, w.processes[pid].request);
        GoesKeeps(fp, w, pid, Finished);
    }
  }

  lemma FinishedIsSound(fp: Fingerprinter, w: World, r: Request)
    ensures ProcessSound(fp, w, Process(r, Finished))
  {
  }

  lemma TableUntouched(fp: Fingerprinter, w: World, project: Slot, options: Options)
    requires Sound(fp, w)
    ensures var v := w.(defaults := w.defaults[project := options]); Sound(fp, v) && Grows(w, v)
  {
    hide Stands, ProcessSound, ReplySound;
    var v := w.(defaults := w.defaults[project := options]);
    SameTable(fp, w, v);
    SurroundingsKeep(fp, w, v);
  }

  lemma {:induction false} EveryRunIsSound(fp: Fingerprinter, events: seq<Event>)
    ensures Sound(fp, Run(fp, Start(), events))
  {
    if events != [] {
      EveryRunIsSound(fp, events[..|events| - 1]);
      var before := Run(fp, Start(), events[..|events| - 1]);
      if Enabled(before, events[|events| - 1]) { StepKeeps(fp, before, events[|events| - 1]); }
    }
  }

  // ---- what every run guarantees ----

  /** Every success names a job under the request's key that is fingerprinted as the request is, and
      is the org's own or one that a request under this key could see elsewhere. */
  lemma SuccessIsFingerprinted(fp: Fingerprinter, events: seq<Event>, i: nat)
    requires var replies := Run(fp, Start(), events).replies;
      i < |replies| && replies[i].answer.Success? && replies[i].request.key.Some?
    ensures var w := Run(fp, Start(), events);
      var r := w.replies[i];
      && r.answer.job in w.jobs && w.jobs[r.answer.job].key == r.request.key
      && Stored(fp, w.jobs[r.answer.job]) == r.fingerprint
      && Vouched(w, SlotOf(r.request), w.jobs[r.answer.job])
  {
    EveryRunIsSound(fp, events);
    var w := Run(fp, Start(), events);
    hide Run;
    assert ReplySound(fp, w, w.replies[i]);
  }

  /** Every record the cache was ever told is of such a job, and stays so. */
  lemma CacheTellsTheTruth(fp: Fingerprinter, events: seq<Event>, slot: Slot, record: Record)
    requires record in Told(Run(fp, Start(), events), slot)
    ensures Stands(fp, Run(fp, Start(), events), slot, record.job, record.fingerprint)
  {
    EveryRunIsSound(fp, events);
  }

  // ---- and when that is one job ----

  /** A row under the same key in another org, where these orgs' rows can be seen. */
  predicate Foreign(w: World, slot: Slot, visible: set<string>, job: nat) {
    job in w.jobs && w.jobs[job].key == Some(slot.name) && w.jobs[job].org != slot.org && w.jobs[job].org in visible
  }

  /** No request under this key can see a row under it in another org; no API key ever can. */
  predicate Alone(w: World, slot: Slot) {
    forall pid, job :: pid in w.processes && Under(w.processes[pid].request, slot) && job in w.jobs ==>
      !Foreign(w, slot, w.processes[pid].request.visible, job)
  }

  lemma ApiKeysAreAlone(w: World, slot: Slot)
    requires forall pid :: pid in w.processes && Under(w.processes[pid].request, slot) ==> w.processes[pid].request.visible == {slot.org}
    ensures Alone(w, slot)
  {
  }

  lemma AloneMeansOwn(fp: Fingerprinter, w: World, slot: Slot, job: nat, fingerprint: Fingerprint)
    requires IndexSound(w) && Alone(w, slot) && Stands(fp, w, slot, job, fingerprint)
    ensures w.jobs[job].org == slot.org && slot in w.index && w.index[slot] == job
  {
    forall pid | pid in w.processes && Under(w.processes[pid].request, slot) && Sees(w.processes[pid].request, w.jobs[job])
      ensures w.jobs[job].org == slot.org
    {
      assert !Foreign(w, slot, w.processes[pid].request.visible, job);
    }
  }

  /** Under any interleaving and any stale or missing cache answers, if no request under an (org, key)
      can see that key in another org, its successes name one job and carry one fingerprint. */
  lemma OneKeyOneJob(fp: Fingerprinter, events: seq<Event>, i: nat, j: nat, slot: Slot)
    requires var w := Run(fp, Start(), events);
      && Alone(w, slot) && i < |w.replies| && j < |w.replies|
      && Under(w.replies[i].request, slot) && Under(w.replies[j].request, slot)
      && w.replies[i].answer.Success? && w.replies[j].answer.Success?
    ensures var replies := Run(fp, Start(), events).replies;
      replies[i].answer.job == replies[j].answer.job && replies[i].fingerprint == replies[j].fingerprint
  {
    EveryRunIsSound(fp, events);
    var w := Run(fp, Start(), events);
    hide Run;
    OneJobWhenAlone(fp, w, i, j, slot);
  }

  lemma OneJobWhenAlone(fp: Fingerprinter, w: World, i: nat, j: nat, slot: Slot)
    requires Sound(fp, w) && Alone(w, slot) && i < |w.replies| && j < |w.replies|
    requires Under(w.replies[i].request, slot) && Under(w.replies[j].request, slot)
    requires w.replies[i].answer.Success? && w.replies[j].answer.Success?
    ensures w.replies[i].answer.job == w.replies[j].answer.job && w.replies[i].fingerprint == w.replies[j].fingerprint
  {
    assert ReplySound(fp, w, w.replies[i]) && ReplySound(fp, w, w.replies[j]);
    AloneMeansOwn(fp, w, slot, w.replies[i].answer.job, w.replies[i].fingerprint);
    AloneMeansOwn(fp, w, slot, w.replies[j].answer.job, w.replies[j].fingerprint);
  }

  /** A conflict is never guessed: a job stands under that key with another fingerprint, and if the
      key is alone it is the org's own. */
  lemma ConflictIsReal(fp: Fingerprinter, events: seq<Event>, i: nat)
    requires var replies := Run(fp, Start(), events).replies;
      i < |replies| && replies[i].answer.Conflict? && replies[i].request.key.Some?
    ensures var w := Run(fp, Start(), events);
      var slot := SlotOf(w.replies[i].request);
      && OtherStands(fp, w, slot, w.replies[i].fingerprint)
      && (Alone(w, slot) ==>
            slot in w.index && w.index[slot] in w.jobs && Stored(fp, w.jobs[w.index[slot]]) != w.replies[i].fingerprint)
  {
    EveryRunIsSound(fp, events);
    var w := Run(fp, Start(), events);
    hide Run;
    var slot := SlotOf(w.replies[i].request);
    assert ReplySound(fp, w, w.replies[i]);
    var job, other :| Stands(fp, w, slot, job, other) && other != w.replies[i].fingerprint;
    if Alone(w, slot) { AloneMeansOwn(fp, w, slot, job, other); }
  }

  // ---- otherwise it can be two ----

  predicate SucceedsFor(r: Reply, slot: Slot, job: nat) {
    Under(r.request, slot) && r.answer.Success? && r.answer.job == job
  }

  /** Two successes under one (org, key) that name two jobs. */
  ghost predicate TwoJobs(w: World, slot: Slot) {
    exists i, j, a, b :: 0 <= i < |w.replies| && 0 <= j < |w.replies| && a != b
      && SucceedsFor(w.replies[i], slot, a) && SucceedsFor(w.replies[j], slot, b)
  }

  /** Only this org's requests move, and none of the new ones sees beyond these orgs. */
  predicate Within(w: World, events: seq<Event>, org: string, visible: set<string>) {
    forall e :: e in events ==>
      match e
      case Arrive(_, r) => r.org == org && r.visible <= visible
      case SetDefaults(_, _) => true
      case _ => e.pid in w.processes ==> w.processes[e.pid].request.org == org
  }

  /** All that such events add: rows of the org, and requests that see no further. */
  predicate Added(w: World, v: World, org: string, visible: set<string>) {
    && (forall id :: id in v.jobs ==> (id in w.jobs && v.jobs[id] == w.jobs[id]) || v.jobs[id].org == org)
    && (forall pid :: pid in v.processes ==>
          if pid in w.processes then v.processes[pid].request == w.processes[pid].request
          else v.processes[pid].request.org == org && v.processes[pid].request.visible <= visible)
  }

  /** The one row and the one request that a step can add. */
  lemma StepAddsOne(fp: Fingerprinter, v: World, e: Event)
    requires Enabled(v, e)
    ensures var u := Step(fp, v, e);
      && (forall id :: id in u.jobs ==>
            (id in v.jobs && u.jobs[id] == v.jobs[id]) || (e.Create? && u.jobs[id].org == v.processes[e.pid].request.org))
      && (forall pid :: pid in u.processes ==>
            (pid in v.processes && u.processes[pid].request == v.processes[pid].request)
            || (e.Arrive? && pid == e.pid && u.processes[pid].request == e.request))
      && (forall pid :: pid in v.processes ==> pid in u.processes)
  {
    hide AfterDefaults, AfterCache, AfterFetch, AfterFind, AfterCreate, AfterRemember, Answers, Told, ToldDefaults;
    match e {
      case Defaults(pid, cached, readFrom) => DefaultsMove(fp, v, pid, cached, readFrom);
      case Cache(pid, answer) => CacheMoves(v, pid, v.processes[pid].progress.fingerprint, answer);
      case Fetch(pid) => FetchMoves(v, pid, v.processes[pid].progress.fingerprint, v.processes[pid].progress.job);
      case Find(pid, found) => AnswerIsThere(v, e); FindMoves(fp, v, pid, v.processes[pid].progress.fingerprint, found);
      case Create(pid, newId) => CreateMoves(fp, v, pid, v.processes[pid].progress.fingerprint, newId);
      case Remember(pid) =>
        RememberMoves(v, pid, v.processes[pid].progress.fingerprint, v.processes[pid].progress.job, v.processes[pid].progress.status);
      case _ =>
    }
  }

  /** No row is added and every request stays what it was. */
  predicate Moves(v: World, u: World) {
    u.jobs == v.jobs && u.processes.Keys == v.processes.Keys
    && forall pid :: pid in v.processes ==> u.processes[pid].request == v.processes[pid].request
  }

  lemma GoesMoves(v: World, pid: nat, progress: Progress)
    requires At(v, pid)
    ensures Moves(v, Goes(v, pid, progress))
  {
  }

  lemma RepliesMoves(v: World, pid: nat, fingerprint: Fingerprint, answer: Answer)
    requires At(v, pid)
    ensures Moves(v, Replies(v, pid, fingerprint, answer))
  {
    hide Goes;
    GoesMoves(v, pid, Finished);
  }

  lemma DefaultsMove(fp: Fingerprinter, v: World, pid: nat, cached: Option<Options>, readFrom: Option<string>)
    requires At(v, pid)
    ensures Moves(v, AfterDefaults(fp, v, pid, cached, readFrom))
  {
    hide DefaultsOf, ToldDefaults, Resolved;
  }

  lemma CacheMoves(v: World, pid: nat, fingerprint: Fingerprint, answer: Option<Record>)
    requires At(v, pid)
    ensures Moves(v, AfterCache(v, pid, fingerprint, answer))
  {
    hide Goes, Replies, Moves;
    GoesMoves(v, pid, FindsByKey(fingerprint));
    RepliesMoves(v, pid, fingerprint, Conflict);
    if answer.Some? { GoesMoves(v, pid, FetchesJob(fingerprint, answer.value.job)); }
  }

  lemma FetchMoves(v: World, pid: nat, fingerprint: Fingerprint, job: nat)
    requires At(v, pid)
    ensures Moves(v, AfterFetch(v, pid, fingerprint, job))
  {
  }

  lemma AnswerIsThere(v: World, e: Event)
    requires e.Find? && Enabled(v, e)
    ensures e.found.Some? ==> e.found.value in v.jobs
  {
  }

  lemma FindMoves(fp: Fingerprinter, v: World, pid: nat, fingerprint: Fingerprint, found: Option<nat>)
    requires At(v, pid) && (found.Some? ==> found.value in v.jobs)
    ensures Moves(v, AfterFind(fp, v, pid, fingerprint, found))
  {
    hide Goes, Replies, Moves, Stored;
    GoesMoves(v, pid, Creates(fingerprint));
    RepliesMoves(v, pid, fingerprint, Conflict);
    if found.Some? { GoesMoves(v, pid, Remembers(fingerprint, found.value, 200)); }
  }

  lemma RememberMoves(v: World, pid: nat, fingerprint: Fingerprint, job: nat, status: nat)
    requires At(v, pid) && v.processes[pid].request.key.Some?
    ensures Moves(v, AfterRemember(v, pid, fingerprint, job, status))
  {
    hide Told;
  }

  lemma CreateMoves(fp: Fingerprinter, v: World, pid: nat, fingerprint: Fingerprint, newId: nat)
    requires At(v, pid)
    ensures var u := AfterCreate(fp, v, pid, fingerprint, newId);
      && (forall id :: id in u.jobs ==>
            (id in v.jobs && u.jobs[id] == v.jobs[id]) || (id == newId && u.jobs[id].org == v.processes[pid].request.org))
      && u.processes.Keys == v.processes.Keys
      && forall p :: p in v.processes ==> u.processes[p].request == v.processes[p].request
  {
    hide Goes, Replies, Stored, Submitted;
    var (after, job) := Submitted(v, v.processes[pid].request, newId);
    SubmittedAdds(v, v.processes[pid].request, newId);
    RepliesMoves(after, pid, fingerprint, Success(job, 202));
    RepliesMoves(after, pid, fingerprint, Conflict);
    GoesMoves(after, pid, Remembers(fingerprint, job, 202));
  }

  lemma SubmittedAdds(v: World, r: Request, newId: nat)
    ensures var (u, job) := Submitted(v, r, newId);
      && u.processes == v.processes
      && forall id :: id in u.jobs ==> (id in v.jobs && u.jobs[id] == v.jobs[id]) || (id == newId && u.jobs[id].org == r.org)
  {
    hide Resolved, DefaultsOf;
  }

  lemma StepAdds(fp: Fingerprinter, w: World, v: World, e: Event, org: string, visible: set<string>)
    requires Added(w, v, org, visible) && Within(w, [e], org, visible) && Enabled(v, e)
    requires forall pid :: pid in w.processes ==> pid in v.processes
    ensures Added(w, Step(fp, v, e), org, visible) && forall pid :: pid in w.processes ==> pid in Step(fp, v, e).processes
  {
    StepAddsOne(fp, v, e);
    assert e in [e];
    hide Step;
  }

  lemma {:induction false} RunAdds(fp: Fingerprinter, w: World, events: seq<Event>, org: string, visible: set<string>)
    requires Within(w, events, org, visible)
    ensures Added(w, Run(fp, w, events), org, visible) && forall pid :: pid in w.processes ==> pid in Run(fp, w, events).processes
  {
    if events != [] {
      var head, e := events[..|events| - 1], events[|events| - 1];
      assert e in events && forall x :: x in head ==> x in events;
      RunAdds(fp, w, head, org, visible);
      hide Added;
      assert Within(w, [e], org, visible);
      if Enabled(Run(fp, w, head), e) { StepAdds(fp, w, Run(fp, w, head), e, org, visible); }
    }
  }

  lemma {:induction false} RunKeeps(fp: Fingerprinter, w: World, events: seq<Event>)
    requires Sound(fp, w)
    ensures Sound(fp, Run(fp, w, events))
  {
    if events != [] {
      RunKeeps(fp, w, events[..|events| - 1]);
      var before := Run(fp, w, events[..|events| - 1]);
      if Enabled(before, events[|events| - 1]) { StepKeeps(fp, before, events[|events| - 1]); }
    }
  }

  /** Nothing foreign in sight, nothing foreign ever named. */
  lemma NoForeignRowNoSecondJob(fp: Fingerprinter, w: World, events: seq<Event>, slot: Slot, visible: set<string>)
    requires Sound(fp, w) && Within(w, events, slot.org, visible)
    requires forall pid :: pid in w.processes && Under(w.processes[pid].request, slot) ==> w.processes[pid].request.visible <= visible
    requires forall job :: job in w.jobs ==> !Foreign(w, slot, visible, job)
    ensures !TwoJobs(Run(fp, w, events), slot)
  {
    RunAdds(fp, w, events, slot.org, visible);
    RunKeeps(fp, w, events);
    var v := Run(fp, w, events);
    hide Run, Sound, Within;
    assert Alone(v, slot) by {
      forall pid, job | pid in v.processes && Under(v.processes[pid].request, slot) && job in v.jobs
        ensures !Foreign(v, slot, v.processes[pid].request.visible, job)
      {
        if job in w.jobs { assert !Foreign(w, slot, visible, job); }
      }
    }
    hide Alone, Added, Foreign;
    forall i: nat, j: nat | i < |v.replies| && j < |v.replies| && Under(v.replies[i].request, slot)
      && Under(v.replies[j].request, slot) && v.replies[i].answer.Success? && v.replies[j].answer.Success?
      ensures v.replies[i].answer.job == v.replies[j].answer.job
    {
      OneJobWhenAlone(fp, v, i, j, slot);
    }
  }

  lemma {:induction false} RunTwo(fp: Fingerprinter, w: World, first: seq<Event>, second: seq<Event>)
    ensures Run(fp, w, first + second) == Run(fp, Run(fp, w, first), second)
  {
    if second == [] {
      assert first + second == first;
    } else {
      var head := second[..|second| - 1];
      assert (first + second)[..|first + second| - 1] == first + head;
      RunTwo(fp, w, first, head);
    }
  }

  lemma RunThree(fp: Fingerprinter, w: World, a: Event, b: Event, c: Event)
    ensures Run(fp, w, [a, b, c]) == Then(fp, Then(fp, Then(fp, w, a), b), c)
  {
    hide Then;
    assert [a, b, c][..2] == [a, b] && [a, b][..1] == [a] && [a][..0] == [];
    assert Run(fp, w, [a]) == Then(fp, w, a) && Run(fp, w, [a, b]) == Then(fp, Then(fp, w, a), b);
  }

  /** The tables and the cache of jobs are as they were, and so is every request but one. */
  predicate SameButFor(w: World, v: World, pid: nat) {
    && v.jobs == w.jobs && v.index == w.index && v.defaults == w.defaults && v.told == w.told && v.replies == w.replies
    && v.processes.Keys == w.processes.Keys + {pid}
    && forall p :: p in w.processes && p != pid ==> v.processes[p] == w.processes[p]
  }

  /** A keyed request, as far as its lookup, when the cache knows nothing of it. */
  function Asking(pid: nat, r: Request): seq<Event> {
    [Arrive(pid, r), Defaults(pid, None, Some(r.org)), Cache(pid, None)]
  }

  lemma ArriveStep(fp: Fingerprinter, w: World, pid: nat, r: Request)
    requires pid !in w.processes && r.key.Some? && r.org in r.visible
    ensures var v := Then(fp, w, Arrive(pid, r)); SameButFor(w, v, pid) && v.processes[pid] == Process(r, ReadsDefaults)
  {
  }

  lemma DefaultsStep(fp: Fingerprinter, w: World, pid: nat)
    requires pid in w.processes && w.processes[pid].progress.ReadsDefaults?
    requires var r := w.processes[pid].request;
      r.key.Some? && r.org in r.visible && ProjectOf(r) in w.defaults && w.defaults[ProjectOf(r)] == map[]
    ensures var r := w.processes[pid].request;
      var v := Then(fp, w, Defaults(pid, None, Some(r.org)));
      SameButFor(w, v, pid) && v.processes[pid] == Process(r, ReadsCache(fp(r.script, r.options)))
  {
    hide ToldDefaults;
    var r := w.processes[pid].request;
    assert map[] + r.options == r.options;
  }

  lemma CacheStep(fp: Fingerprinter, w: World, pid: nat)
    requires pid in w.processes && w.processes[pid].progress.ReadsCache? && w.processes[pid].request.key.Some?
    ensures var p := w.processes[pid];
      var v := Then(fp, w, Cache(pid, None));
      SameButFor(w, v, pid) && v.processes[pid] == Process(p.request, FindsByKey(p.progress.fingerprint))
  {
  }

  lemma AskingLooksUp(fp: Fingerprinter, w: World, pid: nat, r: Request)
    requires pid !in w.processes && r.key.Some? && r.org in r.visible
    requires ProjectOf(r) in w.defaults && w.defaults[ProjectOf(r)] == map[]
    ensures var v := Run(fp, w, Asking(pid, r));
      SameButFor(w, v, pid) && v.processes[pid] == Process(r, FindsByKey(fp(r.script, r.options)))
  {
    RunThree(fp, w, Arrive(pid, r), Defaults(pid, None, Some(r.org)), Cache(pid, None));
    hide Run, Then;
    ArriveStep(fp, w, pid, r);
    var w1 := Then(fp, w, Arrive(pid, r));
    DefaultsStep(fp, w1, pid);
    CacheStep(fp, Then(fp, w1, Defaults(pid, None, Some(r.org))), pid);
  }

  lemma RunPair(fp: Fingerprinter, w: World, a: Event, b: Event)
    ensures Run(fp, w, [a, b]) == Then(fp, Then(fp, w, a), b)
  {
    hide Then;
    assert [a, b][..1] == [a] && [a][..0] == [];
    assert Run(fp, w, [a]) == Then(fp, w, a);
  }

  /** A request that sees a row under its key, and would render the same, can be answered with that row's
      job, whichever org's it is. */
  lemma SeenJobIsGiven(fp: Fingerprinter, w: World, pid: nat, job: nat)
    requires At(w, pid) && Answers(w, w.processes[pid].request, job)
    requires w.processes[pid].progress == FindsByKey(Stored(fp, w.jobs[job]))
    ensures var v := Run(fp, w, [Find(pid, Some(job)), Remember(pid)]);
      && v.jobs == w.jobs && v.index == w.index && v.defaults == w.defaults && v.processes.Keys == w.processes.Keys
      && v.replies == w.replies + [Reply(w.processes[pid].request, Stored(fp, w.jobs[job]), Success(job, 200))]
  {
    var a, b := Find(pid, Some(job)), Remember(pid);
    RunPair(fp, w, a, b);
    hide Run, Stored;
    var w1 := Then(fp, w, a);
    assert w1 == Goes(w, pid, Remembers(Stored(fp, w.jobs[job]), job, 200));
  }

  /** A request that sees no row under its key makes its org's own. */
  lemma OwnJobIsMade(fp: Fingerprinter, w: World, pid: nat, newId: nat)
    requires At(w, pid) && newId !in w.jobs && w.processes[pid].request.key.Some?
    requires forall job :: job in w.jobs ==> !Answers(w, w.processes[pid].request, job)
    requires SlotOf(w.processes[pid].request) !in w.index
    requires var r := w.processes[pid].request;
      && DefaultsOf(w, ProjectOf(r)) == map[] && w.processes[pid].progress == FindsByKey(fp(r.script, r.options))
    ensures var r := w.processes[pid].request;
      Run(fp, w, [Find(pid, None), Create(pid, newId), Remember(pid)]).replies
        == w.replies + [Reply(r, fp(r.script, r.options), Success(newId, 202))]
  {
    var r := w.processes[pid].request;
    var asked := fp(r.script, r.options);
    RunThree(fp, w, Find(pid, None), Create(pid, newId), Remember(pid));
    hide Run, Answers, AfterCreate, Then;
    FindNoneStep(fp, w, pid);
    var w1 := Then(fp, w, Find(pid, None));
    assert map[] + r.options == r.options;
    CreateStep(fp, w1, pid, asked, newId);
    CreatorIsCompared(fp, w1, pid, asked, newId);
    RememberStep(fp, Then(fp, w1, Create(pid, newId)), pid);
  }

  lemma RememberStep(fp: Fingerprinter, w: World, pid: nat)
    requires pid in w.processes && w.processes[pid].progress.Remembers? && w.processes[pid].request.key.Some?
    ensures var p := w.processes[pid];
      Then(fp, w, Remember(pid)).replies
        == w.replies + [Reply(p.request, p.progress.fingerprint, Success(p.progress.job, p.progress.status))]
  {
    hide Told;
  }

  /** A number that none of these is. */
  lemma {:induction false} FreshNumber(s: set<nat>) returns (n: nat)
    ensures forall m :: m in s ==> m < n
    decreases |s|
  {
    if s == {} {
      n := 0;
    } else {
      var x :| x in s;
      n := FreshNumber(s - {x});
      n := if x < n then n else x + 1;
      forall m | m in s ensures m < n { assert m == x || m in s - {x}; }
    }
  }

  /** What an API key of the org submits to a project: what the org holds under the key, if it holds
      anything, and else this script. */
  function OwnRequest(w: World, slot: Slot, project: string, script: string): Request
    requires slot in w.index ==> w.index[slot] in w.jobs
  {
    if slot in w.index
    then Request(slot.org, {slot.org}, Some(slot.name), project, w.jobs[w.index[slot]].script, w.jobs[w.index[slot]].options)
    else Request(slot.org, {slot.org}, Some(slot.name), project, script, map[])
  }

  /** Someone who sees both orgs submits what the other org holds under this key. */
  function BothRequest(slot: Slot, visible: set<string>, project: string, row: Row): Request {
    Request(slot.org, visible, Some(slot.name), project, row.script, row.options)
  }

  function OwnEvents(w: World, slot: Slot, p: nat, newId: nat): seq<Event> {
    if slot in w.index then [Find(p, Some(w.index[slot])), Remember(p)] else [Find(p, None), Create(p, newId), Remember(p)]
  }

  /** The run that breaks the guarantee: the one submission after the other. */
  function Breaking(w: World, slot: Slot, visible: set<string>, foreign: nat, project: string, script: string, p: nat, newId: nat): seq<Event>
    requires foreign in w.jobs && (slot in w.index ==> w.index[slot] in w.jobs)
  {
    [SetDefaults(Slot(slot.org, project), map[])]
    + (Asking(p, BothRequest(slot, visible, project, w.jobs[foreign])) + [Find(p, Some(foreign)), Remember(p)]
    + (Asking(p + 1, OwnRequest(w, slot, project, script)) + OwnEvents(w, slot, p + 1, newId)))
  }

  lemma ForeignRowMakesTwoJobs(fp: Fingerprinter, w: World, slot: Slot, visible: set<string>, foreign: nat, project: string, script: string,
      p: nat, newId: nat)
    requires IndexSound(w) && slot.org in visible && Foreign(w, slot, visible, foreign)
    requires p !in w.processes && p + 1 !in w.processes && newId !in w.jobs
    requires slot in w.index ==> w.index[slot] in w.jobs
    ensures TwoJobs(Run(fp, w, Breaking(w, slot, visible, foreign, project, script, p, newId)), slot)
  {
    hide Run, Asking, OwnEvents, IndexSound, SucceedsFor, SameButFor, OwnRequest, BothRequest;
    var both, own := BothRequest(slot, visible, project, w.jobs[foreign]), OwnRequest(w, slot, project, script);
    var a := [SetDefaults(Slot(slot.org, project), map[])];
    var b := Asking(p, both) + [Find(p, Some(foreign)), Remember(p)];
    var c := Asking(p + 1, own) + OwnEvents(w, slot, p + 1, newId);
    var w0 := Run(fp, w, a);
    DefaultsAreSet(fp, w, Slot(slot.org, project));
    var first := BothIsGivenForeign(fp, w0, slot, visible, foreign, project, p);
    var w1 := Run(fp, w0, b);
    var second, mine := OwnIsGivenOwn(fp, w, w1, slot, project, script, p + 1, newId);
    RunTwo(fp, w, a, b + c);
    RunTwo(fp, w0, b, c);
    assert a + (b + c) == Breaking(w, slot, visible, foreign, project, script, p, newId);
    var replies := Run(fp, w1, c).replies;
    assert replies[|w.replies|] == first && replies[|w.replies| + 1] == second;
  }

  lemma BothIsGivenForeign(fp: Fingerprinter, w: World, slot: Slot, visible: set<string>, foreign: nat, project: string, p: nat) returns (r: Reply)
    requires slot.org in visible && Foreign(w, slot, visible, foreign) && p !in w.processes
    requires Slot(slot.org, project) in w.defaults && w.defaults[Slot(slot.org, project)] == map[]
    ensures SucceedsFor(r, slot, foreign)
    ensures var v := Run(fp, w, Asking(p, BothRequest(slot, visible, project, w.jobs[foreign])) + [Find(p, Some(foreign)), Remember(p)]);
      && v.replies == w.replies + [r] && v.jobs == w.jobs && v.index == w.index && v.defaults == w.defaults
      && v.processes.Keys == w.processes.Keys + {p}
  {
    hide Run, Asking;
    var both := BothRequest(slot, visible, project, w.jobs[foreign]);
    AskingLooksUp(fp, w, p, both);
    SeenJobIsGiven(fp, Run(fp, w, Asking(p, both)), p, foreign);
    RunTwo(fp, w, Asking(p, both), [Find(p, Some(foreign)), Remember(p)]);
    r := Reply(both, Stored(fp, w.jobs[foreign]), Success(foreign, 200));
  }

  lemma OwnIsGivenOwn(fp: Fingerprinter, w: World, v: World, slot: Slot, project: string, script: string, p: nat, newId: nat) returns (r: Reply, mine: nat)
    requires IndexSound(w) && v.jobs == w.jobs && v.index == w.index && newId !in w.jobs && p !in v.processes
    requires Slot(slot.org, project) in v.defaults && v.defaults[Slot(slot.org, project)] == map[]
    requires slot in w.index ==> w.index[slot] in w.jobs
    ensures SucceedsFor(r, slot, mine) && (mine in w.jobs ==> w.jobs[mine].org == slot.org)
    ensures Run(fp, v, Asking(p, OwnRequest(w, slot, project, script)) + OwnEvents(w, slot, p, newId)).replies == v.replies + [r]
  {
    hide Run, Asking, OwnEvents, IndexSound;
    var own := OwnRequest(w, slot, project, script);
    AskingLooksUp(fp, v, p, own);
    r, mine := OwnJobIsGiven(fp, w, Run(fp, v, Asking(p, own)), slot, project, script, p, newId);
    RunTwo(fp, v, Asking(p, own), OwnEvents(w, slot, p, newId));
  }

  /** And the org's API key is answered with the org's own. */
  lemma OwnJobIsGiven(fp: Fingerprinter, w: World, v: World, slot: Slot, project: string, script: string, p: nat, newId: nat) returns (r: Reply, mine: nat)
    requires IndexSound(w) && v.jobs == w.jobs && v.index == w.index && newId !in w.jobs && DefaultsOf(v, Slot(slot.org, project)) == map[]
    requires slot in w.index ==> w.index[slot] in w.jobs
    requires p in v.processes
    requires var r := OwnRequest(w, slot, project, script); v.processes[p] == Process(r, FindsByKey(fp(r.script, r.options)))
    ensures SucceedsFor(r, slot, mine) && (mine in w.jobs ==> w.jobs[mine].org == slot.org)
    ensures Run(fp, v, OwnEvents(w, slot, p, newId)).replies == v.replies + [r]
  {
    var own := OwnRequest(w, slot, project, script);
    hide Run, IndexSound;
    OwnRowIsIndexed(w, slot);
    if slot in w.index {
      mine := w.index[slot];
      SeenJobIsGiven(fp, v, p, mine);
      r := Reply(own, Stored(fp, v.jobs[mine]), Success(mine, 200));
    } else {
      mine := newId;
      OwnJobIsMade(fp, v, p, newId);
      r := Reply(own, fp(own.script, own.options), Success(mine, 202));
    }
  }

  /** A key is indexed exactly when its org has a row under it. */
  lemma OwnRowIsIndexed(w: World, slot: Slot)
    requires IndexSound(w)
    ensures slot in w.index ==>
      w.index[slot] in w.jobs && w.jobs[w.index[slot]].org == slot.org && w.jobs[w.index[slot]].key == Some(slot.name)
    ensures slot !in w.index ==>
      forall job :: job in w.jobs ==> !(w.jobs[job].org == slot.org && w.jobs[job].key == Some(slot.name))
  {
  }

  lemma DefaultsAreSet(fp: Fingerprinter, w: World, project: Slot)
    ensures Run(fp, w, [SetDefaults(project, map[])]) == w.(defaults := w.defaults[project := map[]])
  {
    var e := SetDefaults(project, map[]);
    assert [e][..0] == [];
  }

  lemma BreakingIsWithin(w: World, slot: Slot, visible: set<string>, foreign: nat, project: string, script: string, p: nat, newId: nat)
    requires foreign in w.jobs && (slot in w.index ==> w.index[slot] in w.jobs)
    requires slot.org in visible && p !in w.processes && p + 1 !in w.processes
    ensures Within(w, Breaking(w, slot, visible, foreign, project, script, p, newId), slot.org, visible)
  {
    hide Within;
    var both, own := BothRequest(slot, visible, project, w.jobs[foreign]), OwnRequest(w, slot, project, script);
    var a, b := [SetDefaults(Slot(slot.org, project), map[])], [Find(p, Some(foreign)), Remember(p)];
    MovesAreWithin(w, a, slot.org, visible, p);
    MovesAreWithin(w, b, slot.org, visible, p);
    MovesAreWithin(w, OwnEvents(w, slot, p + 1, newId), slot.org, visible, p + 1);
    AskingIsWithin(w, p, both, visible);
    AskingIsWithin(w, p + 1, own, visible);
    hide Asking, OwnEvents, OwnRequest, BothRequest;
    WithinTwo(w, Asking(p, both), b, slot.org, visible);
    WithinTwo(w, Asking(p + 1, own), OwnEvents(w, slot, p + 1, newId), slot.org, visible);
    WithinTwo(w, Asking(p, both) + b, Asking(p + 1, own) + OwnEvents(w, slot, p + 1, newId), slot.org, visible);
    WithinTwo(w, a, Asking(p, both) + b + (Asking(p + 1, own) + OwnEvents(w, slot, p + 1, newId)), slot.org, visible);
  }

  lemma WithinTwo(w: World, first: seq<Event>, second: seq<Event>, org: string, visible: set<string>)
    requires Within(w, first, org, visible) && Within(w, second, org, visible)
    ensures Within(w, first + second, org, visible)
  {
  }

  lemma MovesAreWithin(w: World, events: seq<Event>, org: string, visible: set<string>, p: nat)
    requires p !in w.processes && forall e :: e in events ==> e.SetDefaults? || (!e.Arrive? && e.pid == p)
    ensures Within(w, events, org, visible)
  {
  }

  lemma AskingIsWithin(w: World, p: nat, r: Request, visible: set<string>)
    requires p !in w.processes && r.visible <= visible
    ensures Within(w, Asking(p, r), r.org, visible)
  {
  }

  /** A project and a script that the edge accepts. */
  const PROJECT := "demo"
  const SCRIPT := "[{\"op\":\"start_recording\"}]"

  /** The guarantee holds exactly while no other org, of those its callers can see, has a row under the
      key: then no run of the org's own requests names two jobs, and otherwise some run does. */
  lemma GuaranteeHoldsExactlyWhen(fp: Fingerprinter, w: World, slot: Slot, visible: set<string>)
    requires Sound(fp, w) && slot.org in visible
    requires forall pid :: pid in w.processes && Under(w.processes[pid].request, slot) ==> w.processes[pid].request.visible <= visible
    ensures (exists events :: Within(w, events, slot.org, visible) && TwoJobs(Run(fp, w, events), slot))
      <==> exists job :: Foreign(w, slot, visible, job)
  {
    hide Sound, Run, Within, TwoJobs, Under;
    if job :| Foreign(w, slot, visible, job) {
      var p := FreshNumber(w.processes.Keys);
      var newId := FreshNumber(w.jobs.Keys);
      SoundIndex(fp, w);
      OwnRowIsIndexed(w, slot);
      ForeignRowMakesTwoJobs(fp, w, slot, visible, job, PROJECT, SCRIPT, p, newId);
      BreakingIsWithin(w, slot, visible, job, PROJECT, SCRIPT, p, newId);
    } else {
      forall events | Within(w, events, slot.org, visible) ensures !TwoJobs(Run(fp, w, events), slot) {
        NoForeignRowNoSecondJob(fp, w, events, slot, visible);
      }
    }
  }

  lemma SoundIndex(fp: Fingerprinter, w: World)
    requires Sound(fp, w)
    ensures IndexSound(w)
  {
  }

  // ---- a request refused by its own job ----

  /** The request that creates its key's job compares what it hashed with what was stored. */
  lemma CreatorIsCompared(fp: Fingerprinter, w: World, pid: nat, asked: Fingerprint, newId: nat)
    requires At(w, pid) && newId !in w.jobs
    requires w.processes[pid].request.key.Some? && SlotOf(w.processes[pid].request) !in w.index
    ensures var r := w.processes[pid].request;
      var v := AfterCreate(fp, w, pid, asked, newId);
      var row := Row(r.org, r.key, r.script, Resolved(DefaultsOf(w, ProjectOf(r)), r.options));
      && v.index == w.index[SlotOf(r) := newId] && v.jobs == w.jobs[newId := row]
      && (if Stored(fp, row) != asked then v.replies == w.replies + [Reply(r, asked, Conflict)]
          else v.replies == w.replies && pid in v.processes && v.processes[pid] == Process(r, Remembers(asked, newId, 202)))
  {
    hide Resolved, DefaultsOf;
  }

  lemma FindNoneStep(fp: Fingerprinter, w: World, pid: nat)
    requires pid in w.processes && w.processes[pid].progress.FindsByKey? && w.processes[pid].request.key.Some?
    requires forall job :: job in w.jobs ==> !Answers(w, w.processes[pid].request, job)
    ensures var p := w.processes[pid];
      var v := Then(fp, w, Find(pid, None));
      SameButFor(w, v, pid) && v.processes[pid] == Process(p.request, Creates(p.progress.fingerprint))
  {
    hide Answers;
  }

  lemma CreateStep(fp: Fingerprinter, w: World, pid: nat, asked: Fingerprint, newId: nat)
    requires At(w, pid) && w.processes[pid].progress == Creates(asked) && newId !in w.jobs
    requires w.processes[pid].request.key.Some? && SlotOf(w.processes[pid].request) !in w.index
    ensures Then(fp, w, Create(pid, newId)) == AfterCreate(fp, w, pid, asked, newId)
    ensures var r := w.processes[pid].request;
      var v := AfterCreate(fp, w, pid, asked, newId);
      var stored := fp(r.script, Resolved(DefaultsOf(w, ProjectOf(r)), r.options));
      && v.index == w.index[SlotOf(r) := newId] && newId in v.jobs
      && v.replies == w.replies + if stored != asked then [Reply(r, asked, Conflict)] else []
  {
    hide Resolved, DefaultsOf, AfterCreate;
    CreatorIsCompared(fp, w, pid, asked, newId);
  }
}
