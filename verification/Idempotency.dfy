/** Submitting a job under an idempotency key: many requests at once over one database and a cache
    that may answer with anything it was ever told, or nothing. */
module Idempotency {
  import opened Wrappers

  type Options = map<string, string>

  /** What is hashed: a script and the options it would render under. */
  type Fingerprint = nat
  type Fingerprinter = (string, Options) -> Fingerprint

  /** `visible` is the orgs whose rows the caller's database session can see: the one org of an API
      key, every org of a signed-in person. The org asked for is always among them. */
  datatype Request = Request(
    org: string, visible: set<string>, key: Option<string>, project: string, script: string, options: Options)

  datatype Row = Row(org: string, key: Option<string>, script: string, options: Options)

  datatype Record = Record(job: nat, fingerprint: Fingerprint)

  /** An org's own name for something: an idempotency key or a project. */
  datatype Slot = Slot(org: string, name: string)

  datatype Answer = Success(job: nat, status: nat) | Conflict | Error

  datatype Reply = Reply(request: Request, fingerprint: Fingerprint, answer: Answer)

  /** Where one request has got to; each constructor is the access it is about to make. */
  datatype Progress =
    | ReadsDefaults
    | ReadsCache(fingerprint: Fingerprint)
    | FetchesJob(fingerprint: Fingerprint, job: nat)
    | FindsByKey(fingerprint: Fingerprint)
    | Creates(fingerprint: Fingerprint)
    | Remembers(fingerprint: Fingerprint, job: nat, status: nat)
    | Finished

  datatype Process = Process(request: Request, progress: Progress)

  /** `jobs` and `index` are the table and its unique index on (org, key); `told` and `toldDefaults`
      are everything ever put in the cache. */
  datatype World = World(
    jobs: map<nat, Row>, index: map<Slot, nat>, defaults: map<Slot, Options>,
    told: map<Slot, set<Record>>, toldDefaults: map<Slot, set<Options>>,
    processes: map<nat, Process>, replies: seq<Reply>)

  /** Each event names the request that moves and what the cache or the table answered it. */
  datatype Event =
    | Arrive(pid: nat, request: Request)
    | Defaults(pid: nat, cached: Option<Options>, readFrom: Option<string>)
    | Cache(pid: nat, answer: Option<Record>)
    | Fetch(pid: nat)
    | Find(pid: nat, found: Option<nat>)
    | Create(pid: nat, newId: nat)
    | Remember(pid: nat)
    | Fails(pid: nat)
    | SetDefaults(project: Slot, options: Options)

  function DefaultsOf(w: World, project: Slot): Options {
    if project in w.defaults then w.defaults[project] else map[]
  }

  /** `{ ...defaults, ...options }` and the database's `||` alike: the options win. */
  function Resolved(defaults: Options, options: Options): Options { defaults + options }

  function Told(w: World, slot: Slot): set<Record> { if slot in w.told then w.told[slot] else {} }

  function ToldDefaults(w: World, project: Slot): set<Options> {
    if project in w.toldDefaults then w.toldDefaults[project] else {}
  }

  predicate At(w: World, pid: nat) { pid in w.processes }

  function Goes(w: World, pid: nat, progress: Progress): World
    requires At(w, pid)
  {
    w.(processes := w.processes[pid := w.processes[pid].(progress := progress)])
  }

  function Replies(w: World, pid: nat, fingerprint: Fingerprint, answer: Answer): World
    requires At(w, pid)
  {
    Goes(w, pid, Finished).(replies := w.replies + [Reply(w.processes[pid].request, fingerprint, answer)])
  }

  function SlotOf(r: Request): Slot
    requires r.key.Some?
  {
    Slot(r.org, r.key.value)
  }

  function ProjectOf(r: Request): Slot { Slot(r.org, r.project) }

  function Stored(fp: Fingerprinter, row: Row): Fingerprint { fp(row.script, row.options) }

  /** Row Level Security is the only org filter there is on a read: a row answers if its org is one the
      caller can see. */
  predicate Sees(r: Request, row: Row) { row.org in r.visible }

  /** The lookup by key, as it is asked: any visible row with that key will do. */
  predicate Answers(w: World, r: Request, job: nat) {
    r.key.Some? && job in w.jobs && w.jobs[job].key == r.key && Sees(r, w.jobs[job])
  }

  /** A read of the project's defaults comes from the cache if it answers, and else from a visible project
      of that name, whichever org's it is. */
  predicate CanRead(w: World, r: Request, cached: Option<Options>, readFrom: Option<string>) {
    if cached.Some? then cached.value in ToldDefaults(w, ProjectOf(r))
    else if readFrom.Some? then readFrom.value in r.visible && Slot(readFrom.value, r.project) in w.defaults
    else forall org :: org in r.visible ==> Slot(org, r.project) !in w.defaults
  }

  function DefaultsRead(w: World, r: Request, cached: Option<Options>, readFrom: Option<string>): Options {
    if cached.Some? then cached.value
    else if readFrom.Some? then DefaultsOf(w, Slot(readFrom.value, r.project))
    else map[]
  }

  function AfterDefaults(fp: Fingerprinter, w: World, pid: nat, cached: Option<Options>, readFrom: Option<string>): World
    requires At(w, pid)
  {
    var r := w.processes[pid].request;
    var defaults := DefaultsRead(w, r, cached, readFrom);
    Goes(w.(toldDefaults := w.toldDefaults[ProjectOf(r) := ToldDefaults(w, ProjectOf(r)) + {defaults}]), pid,
      ReadsCache(fp(r.script, Resolved(defaults, r.options))))
  }

  function AfterCache(w: World, pid: nat, fingerprint: Fingerprint, cached: Option<Record>): World
    requires At(w, pid)
  {
    if cached.None? then Goes(w, pid, FindsByKey(fingerprint))
    else if cached.value.fingerprint != fingerprint then Replies(w, pid, fingerprint, Conflict)
    else Goes(w, pid, FetchesJob(fingerprint, cached.value.job))
  }

  /** By id, among the rows the caller can see. */
  function AfterFetch(w: World, pid: nat, fingerprint: Fingerprint, job: nat): World
    requires At(w, pid)
  {
    var there := job in w.jobs && Sees(w.processes[pid].request, w.jobs[job]);
    Replies(w, pid, fingerprint, if there then Success(job, 200) else Error)
  }

  function AfterFind(fp: Fingerprinter, w: World, pid: nat, fingerprint: Fingerprint, found: Option<nat>): World
    requires At(w, pid) && (found.Some? ==> found.value in w.jobs)
  {
    if found.None? then Goes(w, pid, Creates(fingerprint))
    else if Stored(fp, w.jobs[found.value]) != fingerprint then Replies(w, pid, fingerprint, Conflict)
    else Goes(w, pid, Remembers(fingerprint, found.value, 200))
  }

  /** submit_job, in one transaction: the org's own job under the key if there is one, else a new row
      under the defaults of that moment. */
  function Submitted(w: World, r: Request, newId: nat): (World, nat) {
    if r.key.Some? && SlotOf(r) in w.index then (w, w.index[SlotOf(r)])
    else
      (w.(jobs := w.jobs[newId := Row(r.org, r.key, r.script, Resolved(DefaultsOf(w, ProjectOf(r)), r.options))],
          index := if r.key.Some? then w.index[SlotOf(r) := newId] else w.index), newId)
  }

  function AfterCreate(fp: Fingerprinter, w: World, pid: nat, fingerprint: Fingerprint, newId: nat): World
    requires At(w, pid)
  {
    var r := w.processes[pid].request;
    var (after, job) := Submitted(w, r, newId);
    if r.key.None? then Replies(after, pid, fingerprint, Success(job, 202))
    else if job !in after.jobs || Stored(fp, after.jobs[job]) != fingerprint then Replies(after, pid, fingerprint, Conflict)
    else Goes(after, pid, Remembers(fingerprint, job, 202))
  }

  function AfterRemember(w: World, pid: nat, fingerprint: Fingerprint, job: nat, status: nat): World
    requires At(w, pid) && w.processes[pid].request.key.Some?
  {
    var slot := SlotOf(w.processes[pid].request);
    Replies(w.(told := w.told[slot := Told(w, slot) + {Record(job, fingerprint)}]), pid, fingerprint, Success(job, status))
  }

  /** Whether the step an event names is the one that request is about to take, and the answer it
      carries one that could come. */
  predicate Enabled(w: World, e: Event) {
    match e
    case Arrive(pid, r) => pid !in w.processes && r.org in r.visible
    case SetDefaults(_, _) => true
    case Defaults(pid, cached, readFrom) =>
      && At(w, pid) && w.processes[pid].progress.ReadsDefaults? && w.processes[pid].request.key.Some?
      && CanRead(w, w.processes[pid].request, cached, readFrom)
    case Cache(pid, answer) =>
      && At(w, pid) && w.processes[pid].progress.ReadsCache? && w.processes[pid].request.key.Some?
      && (answer.Some? ==> answer.value in Told(w, SlotOf(w.processes[pid].request)))
    case Fetch(pid) => At(w, pid) && w.processes[pid].progress.FetchesJob?
    case Find(pid, found) =>
      && At(w, pid) && w.processes[pid].progress.FindsByKey? && w.processes[pid].request.key.Some?
      && if found.Some? then Answers(w, w.processes[pid].request, found.value)
         else forall job :: job in w.jobs ==> !Answers(w, w.processes[pid].request, job)
    case Create(pid, newId) => At(w, pid) && w.processes[pid].progress.Creates? && newId !in w.jobs
    case Remember(pid) => At(w, pid) && w.processes[pid].progress.Remembers? && w.processes[pid].request.key.Some?
    case Fails(pid) => At(w, pid) && !w.processes[pid].progress.Finished?
  }

  function Step(fp: Fingerprinter, w: World, e: Event): World
    requires Enabled(w, e)
  {
    match e
    case Arrive(pid, r) =>
      w.(processes := w.processes[pid := Process(r, if r.key.Some? then ReadsDefaults else Creates(fp(r.script, r.options)))])
    case SetDefaults(project, options) => w.(defaults := w.defaults[project := options])
    case Defaults(pid, cached, readFrom) => AfterDefaults(fp, w, pid, cached, readFrom)
    case Cache(pid, answer) => AfterCache(w, pid, w.processes[pid].progress.fingerprint, answer)
    case Fetch(pid) => AfterFetch(w, pid, w.processes[pid].progress.fingerprint, w.processes[pid].progress.job)
    case Find(pid, found) => AfterFind(fp, w, pid, w.processes[pid].progress.fingerprint, found)
    case Create(pid, newId) => AfterCreate(fp, w, pid, w.processes[pid].progress.fingerprint, newId)
    case Remember(pid) =>
      AfterRemember(w, pid, w.processes[pid].progress.fingerprint, w.processes[pid].progress.job, w.processes[pid].progress.status)
    case Fails(pid) => Goes(w, pid, Finished)
  }

  /** An event whose step is not enabled does not happen. */
  function Then(fp: Fingerprinter, w: World, e: Event): World { if Enabled(w, e) then Step(fp, w, e) else w }

  function Run(fp: Fingerprinter, w: World, events: seq<Event>): World {
    if events == [] then w else Then(fp, Run(fp, w, events[..|events| - 1]), events[|events| - 1])
  }

  function Start(): World { World(map[], map[], map[], map[], map[], map[], []) }
}
