/** When a submission is told that its key was used for something else by the very job it made. */
module ConflictFacts {
  import opened Wrappers
  import opened Idempotency
  import opened IdempotencyFacts

  // ---- what a request asks for stays what it read ----

  /** It has read its defaults, and hashed this. */
  predicate Asks(p: Process, r: Request, asked: Fingerprint) {
    && p.request == r && !p.progress.ReadsDefaults?
    && (p.progress.Finished? || p.progress.fingerprint == asked)
  }

  /** One request moved, and what it had hashed it still has. */
  ghost predicate Carries(w: World, v: World, pid: nat)
    requires At(w, pid)
  {
    && At(v, pid) && v.processes == w.processes[pid := v.processes[pid]]
    && v.processes[pid].request == w.processes[pid].request
    && (forall r, asked :: Asks(w.processes[pid], r, asked) ==> Asks(v.processes[pid], r, asked))
  }

  lemma GoesCarries(w: World, pid: nat, progress: Progress)
    requires At(w, pid)
    requires !progress.ReadsDefaults?
    requires progress.Finished? || (!w.processes[pid].progress.Finished?
      && (w.processes[pid].progress.ReadsDefaults? || progress.fingerprint == w.processes[pid].progress.fingerprint))
    ensures Carries(w, Goes(w, pid, progress), pid)
  {
  }

  lemma RepliesCarries(w: World, pid: nat, fingerprint: Fingerprint, answer: Answer)
    requires At(w, pid)
    ensures Carries(w, Replies(w, pid, fingerprint, answer), pid)
  {
    hide Goes, Asks;
    GoesCarries(w, pid, Finished);
  }

  lemma LookupsCarry(fp: Fingerprinter, w: World, e: Event)
    requires (e.Cache? || e.Fetch? || e.Find?) && Enabled(w, e)
    ensures Carries(w, Step(fp, w, e), e.pid)
  {
    hide Goes, Replies, Carries, Stored, Answers, Told;
    var p := w.processes[e.pid].progress;
    GoesCarries(w, e.pid, FindsByKey(p.fingerprint));
    GoesCarries(w, e.pid, Creates(p.fingerprint));
    if e.Cache? && e.answer.Some? { GoesCarries(w, e.pid, FetchesJob(p.fingerprint, e.answer.value.job)); }
    if e.Find? && e.found.Some? { GoesCarries(w, e.pid, Remembers(p.fingerprint, e.found.value, 200)); }
    RepliesCarries(w, e.pid, p.fingerprint, Conflict);
    RepliesCarries(w, e.pid, p.fingerprint, Error);
    if e.Fetch? { RepliesCarries(w, e.pid, p.fingerprint, Success(p.job, 200)); }
  }

  lemma CreateCarries(fp: Fingerprinter, w: World, e: Event)
    requires e.Create? && Enabled(w, e)
    ensures Carries(w, Step(fp, w, e), e.pid)
  {
    hide Goes, Replies, Carries, Stored;
    var p := w.processes[e.pid];
    var (after, job) := Submitted(w, p.request, e.newId);
    SameProcesses(w, after, e.pid);
    GoesCarries(after, e.pid, Remembers(p.progress.fingerprint, job, 202));
    RepliesCarries(after, e.pid, p.progress.fingerprint, Conflict);
    RepliesCarries(after, e.pid, p.progress.fingerprint, Success(job, 202));
  }

  lemma SameProcesses(w: World, after: World, pid: nat)
    requires At(w, pid) && after.processes == w.processes
    ensures forall v :: Carries(after, v, pid) ==> Carries(w, v, pid)
  {
  }

  lemma RestCarry(fp: Fingerprinter, w: World, e: Event)
    requires (e.Remember? || e.Fails? || e.Defaults?) && Enabled(w, e)
    ensures Carries(w, Step(fp, w, e), e.pid)
  {
    hide DefaultsRead, CanRead, Resolved, Told, ToldDefaults;
  }

  lemma StepKeepsAsking(fp: Fingerprinter, w: World, e: Event, pid: nat, r: Request, asked: Fingerprint)
    requires Enabled(w, e) && At(w, pid) && Asks(w.processes[pid], r, asked)
    ensures At(Step(fp, w, e), pid) && Asks(Step(fp, w, e).processes[pid], r, asked)
  {
    if e.Arrive? || e.SetDefaults? {
      OthersArrive(fp, w, e, pid);
    } else {
      hide Step, Asks;
      EachCarries(fp, w, e);
    }
  }

  lemma EachCarries(fp: Fingerprinter, w: World, e: Event)
    requires Enabled(w, e) && !e.Arrive? && !e.SetDefaults?
    ensures At(w, e.pid) && Carries(w, Step(fp, w, e), e.pid)
  {
    hide Step, Carries;
    if e.Create? { CreateCarries(fp, w, e); } else if e.Cache? || e.Fetch? || e.Find? { LookupsCarry(fp, w, e); } else { RestCarry(fp, w, e); }
  }

  lemma OthersArrive(fp: Fingerprinter, w: World, e: Event, pid: nat)
    requires Enabled(w, e) && (e.Arrive? || e.SetDefaults?) && At(w, pid)
    ensures At(Step(fp, w, e), pid) && Step(fp, w, e).processes[pid] == w.processes[pid]
  {
  }

  lemma {:induction false} RunKeepsAsking(fp: Fingerprinter, w: World, events: seq<Event>, pid: nat, r: Request, asked: Fingerprint)
    requires At(w, pid) && Asks(w.processes[pid], r, asked)
    ensures At(Run(fp, w, events), pid) && Asks(Run(fp, w, events).processes[pid], r, asked)
  {
    if events != [] {
      hide Enabled, Step, Asks;
      RunKeepsAsking(fp, w, events[..|events| - 1], pid, r, asked);
      var v, e := Run(fp, w, events[..|events| - 1]), events[|events| - 1];
      if Enabled(v, e) { StepKeepsAsking(fp, v, e, pid, r, asked); }
    }
  }

  function HashOf(fp: Fingerprinter, r: Request, defaults: Options): Fingerprint { fp(r.script, Resolved(defaults, r.options)) }

  lemma ReadStep(fp: Fingerprinter, w: World, pid: nat, cached: Option<Options>, readFrom: Option<string>)
    requires At(w, pid) && w.processes[pid].progress.ReadsDefaults? && w.processes[pid].request.key.Some?
    requires CanRead(w, w.processes[pid].request, cached, readFrom)
    ensures var r := w.processes[pid].request;
      var v := Then(fp, w, Defaults(pid, cached, readFrom));
      && SameButFor(w, v, pid)
      && v.processes[pid] == Process(r, ReadsCache(HashOf(fp, r, DefaultsRead(w, r, cached, readFrom))))
      && v.toldDefaults == w.toldDefaults[ProjectOf(r) := ToldDefaults(w, ProjectOf(r)) + {DefaultsRead(w, r, cached, readFrom)}]
  {
    hide ToldDefaults, Resolved, CanRead, DefaultsRead;
  }

  /** Whatever happens between a request's read of its defaults and its insert, the request that makes its
      key's job is refused by that job, and leaves it behind, exactly when the defaults it read hash
      otherwise than the defaults its own project then has. */
  lemma CreatorConflictsExactlyWhen(fp: Fingerprinter, w: World, pid: nat, cached: Option<Options>, readFrom: Option<string>,
      between: seq<Event>, newId: nat)
    requires At(w, pid) && w.processes[pid].progress.ReadsDefaults? && w.processes[pid].request.key.Some?
    requires CanRead(w, w.processes[pid].request, cached, readFrom)
    requires var v := Run(fp, Then(fp, w, Defaults(pid, cached, readFrom)), between);
      && At(v, pid) && v.processes[pid].progress.Creates?
      && SlotOf(w.processes[pid].request) !in v.index && newId !in v.jobs
    ensures var r := w.processes[pid].request;
      var v := Run(fp, Then(fp, w, Defaults(pid, cached, readFrom)), between);
      var u := Then(fp, v, Create(pid, newId));
      var asked, stored := HashOf(fp, r, DefaultsRead(w, r, cached, readFrom)), HashOf(fp, r, DefaultsOf(v, ProjectOf(r)));
      && SlotOf(r) in u.index && u.index[SlotOf(r)] == newId && newId in u.jobs && Stored(fp, u.jobs[newId]) == stored
      && u.replies == v.replies + if stored != asked then [Reply(r, asked, Conflict)] else []
  {
    hide Run, Then, CanRead, DefaultsRead, DefaultsOf, Resolved, AfterCreate;
    var r := w.processes[pid].request;
    var asked := HashOf(fp, r, DefaultsRead(w, r, cached, readFrom));
    ReadStep(fp, w, pid, cached, readFrom);
    var read := Then(fp, w, Defaults(pid, cached, readFrom));
    RunKeepsAsking(fp, read, between, pid, r, asked);
    var v := Run(fp, read, between);
    CreateStep(fp, v, pid, asked, newId);
    CreatorIsCompared(fp, v, pid, asked, newId);
  }

  // ---- alone under its key ----

  /** Only projects' defaults change. */
  predicate OnlyDefaults(changes: seq<Event>) { forall e :: e in changes ==> e.SetDefaults? }

  lemma {:induction false} ChangesOnlyDefaults(fp: Fingerprinter, w: World, changes: seq<Event>)
    requires OnlyDefaults(changes)
    ensures Run(fp, w, changes) == w.(defaults := Run(fp, w, changes).defaults)
  {
    if changes != [] {
      var head, e := changes[..|changes| - 1], changes[|changes| - 1];
      assert e in changes && forall x :: x in head ==> x in changes;
      ChangesOnlyDefaults(fp, w, head);
      SetDefaultsStep(fp, Run(fp, w, head), e);
    }
  }

  lemma SetDefaultsStep(fp: Fingerprinter, w: World, e: Event)
    requires e.SetDefaults?
    ensures Then(fp, w, e) == w.(defaults := w.defaults[e.project := e.options])
  {
  }

  lemma SameAnswers(w: World, v: World, r: Request)
    requires v.jobs == w.jobs
    ensures forall job :: Answers(w, r, job) == Answers(v, r, job)
  {
  }

  /** A submission that sees no row under its key, whatever it read as its defaults and however defaults
      change before its insert, is refused by the job it makes exactly when what it read hashes otherwise
      than what its own project then has. */
  lemma LoneSubmissionConflictsExactlyWhen(fp: Fingerprinter, w: World, pid: nat, cached: Option<Options>, readFrom: Option<string>,
      changes: seq<Event>, newId: nat)
    requires At(w, pid) && w.processes[pid].progress.ReadsDefaults? && OnlyDefaults(changes)
    requires var r := w.processes[pid].request;
      && r.key.Some? && SlotOf(r) !in w.index && newId !in w.jobs && CanRead(w, r, cached, readFrom)
      && forall job :: job in w.jobs ==> !Answers(w, r, job)
    ensures var r := w.processes[pid].request;
      var read := Run(fp, Then(fp, w, Defaults(pid, cached, readFrom)), changes);
      var v := Run(fp, read, [Cache(pid, None), Find(pid, None), Create(pid, newId)]);
      var asked, stored := HashOf(fp, r, DefaultsRead(w, r, cached, readFrom)), HashOf(fp, r, DefaultsOf(read, ProjectOf(r)));
      && SlotOf(r) in v.index && v.index[SlotOf(r)] == newId && newId in v.jobs
      && v.replies == w.replies + if stored != asked then [Reply(r, asked, Conflict)] else []
  {
    hide Run, Then, CanRead, DefaultsRead, DefaultsOf, Answers, HashOf, OnlyDefaults;
    var r := w.processes[pid].request;
    var a, b, c := Cache(pid, None), Find(pid, None), Create(pid, newId);
    ReadStep(fp, w, pid, cached, readFrom);
    var w1 := Then(fp, w, Defaults(pid, cached, readFrom));
    ChangesOnlyDefaults(fp, w1, changes);
    var w2 := Run(fp, w1, changes);
    CacheStep(fp, w2, pid);
    var w3 := Then(fp, w2, a);
    SameAnswers(w, w3, r);
    FindNoneStep(fp, w3, pid);
    RunThree(fp, w2, a, b, c);
    RunPair(fp, w2, a, b);
    RunTwo(fp, w1, changes, [a, b]);
    SameDefaults(w2, Run(fp, w2, [a, b]), ProjectOf(r));
    CreatorConflictsExactlyWhen(fp, w, pid, cached, readFrom, changes + [a, b], newId);
  }

  lemma SameDefaults(w: World, v: World, project: Slot)
    requires w.defaults == v.defaults
    ensures DefaultsOf(w, project) == DefaultsOf(v, project)
  {
  }

  // ---- who can be refused so ----

  /** Every read this request can make now hashes as its own project's defaults do. */
  ghost predicate EveryReadAgrees(fp: Fingerprinter, w: World, r: Request) {
    forall cached, readFrom :: CanRead(w, r, cached, readFrom) ==>
      HashOf(fp, r, DefaultsRead(w, r, cached, readFrom)) == HashOf(fp, r, DefaultsOf(w, ProjectOf(r)))
  }

  /** A request cannot be refused so exactly when all that the cache remembers under its org and project,
      and the project of that name in every org it sees, hash as its own project's defaults do. */
  lemma EveryReadAgreesExactlyWhen(fp: Fingerprinter, w: World, r: Request)
    requires r.org in r.visible
    ensures EveryReadAgrees(fp, w, r) <==>
      && (forall d :: d in ToldDefaults(w, ProjectOf(r)) ==> HashOf(fp, r, d) == HashOf(fp, r, DefaultsOf(w, ProjectOf(r))))
      && (forall org :: org in r.visible && Slot(org, r.project) in w.defaults ==>
            HashOf(fp, r, DefaultsOf(w, Slot(org, r.project))) == HashOf(fp, r, DefaultsOf(w, ProjectOf(r))))
  {
    hide HashOf, ToldDefaults;
    if EveryReadAgrees(fp, w, r) {
      forall d | d in ToldDefaults(w, ProjectOf(r)) ensures HashOf(fp, r, d) == HashOf(fp, r, DefaultsOf(w, ProjectOf(r))) {
        assert CanRead(w, r, Some(d), None) && DefaultsRead(w, r, Some(d), None) == d;
      }
      forall org | org in r.visible && Slot(org, r.project) in w.defaults
        ensures HashOf(fp, r, DefaultsOf(w, Slot(org, r.project))) == HashOf(fp, r, DefaultsOf(w, ProjectOf(r)))
      {
        assert CanRead(w, r, None, Some(org)) && DefaultsRead(w, r, None, Some(org)) == DefaultsOf(w, Slot(org, r.project));
      }
    }
  }

  // ---- with nothing stale and nothing cached ----

  function Member(a: string, b: string, project: string, script: string, key: string): Request {
    Request(a, {a, b}, Some(key), project, script, map[])
  }

  /** An org's first submission to a project, by a person who also belongs to an org that has one of that
      name. */
  function FirstSubmission(a: string, b: string, project: string, script: string, key: string, d: Options): seq<Event> {
    [SetDefaults(Slot(b, project), d), Arrive(0, Member(a, b, project, script, key))]
    + ([Defaults(0, None, Some(b))] + [Cache(0, None), Find(0, None), Create(0, 0)])
  }

  /** The person has arrived, and all there is is the other org's project. */
  function Arrived(a: string, b: string, project: string, script: string, key: string, d: Options): World {
    Start().(defaults := map[Slot(b, project) := d],
             processes := map[0 := Process(Member(a, b, project, script, key), ReadsDefaults)])
  }

  lemma PersonArrives(fp: Fingerprinter, a: string, b: string, project: string, script: string, key: string, d: Options)
    ensures Run(fp, Start(), [SetDefaults(Slot(b, project), d), Arrive(0, Member(a, b, project, script, key))])
      == Arrived(a, b, project, script, key, d)
  {
    RunPair(fp, Start(), SetDefaults(Slot(b, project), d), Arrive(0, Member(a, b, project, script, key)));
  }

  lemma FirstSubmissionIsRun(fp: Fingerprinter, a: string, b: string, project: string, script: string, key: string, d: Options)
    ensures Run(fp, Start(), FirstSubmission(a, b, project, script, key, d))
      == Run(fp, Then(fp, Arrived(a, b, project, script, key, d), Defaults(0, None, Some(b))), [Cache(0, None), Find(0, None), Create(0, 0)])
  {
    hide Run, Then;
    var w, read, rest := Arrived(a, b, project, script, key, d), Defaults(0, None, Some(b)), [Cache(0, None), Find(0, None), Create(0, 0)];
    PersonArrives(fp, a, b, project, script, key, d);
    RunTwo(fp, Start(), [SetDefaults(Slot(b, project), d), Arrive(0, Member(a, b, project, script, key))], [read] + rest);
    RunTwo(fp, w, [read], rest);
    RunSingle(fp, w, read);
  }

  lemma RunSingle(fp: Fingerprinter, w: World, e: Event)
    ensures Run(fp, w, []) == w && Run(fp, w, [e]) == Then(fp, w, e)
  {
    hide Then;
    assert [e][..0] == [];
  }

  lemma ReadsTheOther(fp: Fingerprinter, a: string, b: string, project: string, script: string, key: string, d: Options)
    requires a != b
    ensures var w, r := Arrived(a, b, project, script, key, d), Member(a, b, project, script, key);
      && CanRead(w, r, None, Some(b)) && DefaultsRead(w, r, None, Some(b)) == d && DefaultsOf(w, ProjectOf(r)) == map[]
      && HashOf(fp, r, d) == fp(script, d) && HashOf(fp, r, map[]) == fp(script, map[])
  {
    assert d + map[] == d;
  }

  /** It is refused by its own job exactly when the other org's defaults matter to the hash. */
  lemma OtherOrgsDefaultsRefuse(fp: Fingerprinter, a: string, b: string, project: string, script: string, key: string, d: Options)
    requires a != b
    ensures var v := Run(fp, Start(), FirstSubmission(a, b, project, script, key, d));
      && Slot(a, key) in v.index && v.index[Slot(a, key)] == 0 && 0 in v.jobs
      && v.replies == if fp(script, d) != fp(script, map[])
                      then [Reply(Member(a, b, project, script, key), fp(script, d), Conflict)] else []
  {
    hide Run, Then, CanRead, DefaultsRead, DefaultsOf, HashOf;
    var w, r := Arrived(a, b, project, script, key, d), Member(a, b, project, script, key);
    FirstSubmissionIsRun(fp, a, b, project, script, key, d);
    ReadsTheOther(fp, a, b, project, script, key, d);
    ReadStep(fp, w, 0, None, Some(b));
    var read := Then(fp, w, Defaults(0, None, Some(b)));
    RunSingle(fp, read, Cache(0, None));
    SameDefaults(w, read, ProjectOf(r));
    LoneSubmissionConflictsExactlyWhen(fp, w, 0, None, Some(b), [], 0);
  }

  // ---- and the cache passes it on ----

  lemma MovesTellNothing(w: World, pid: nat)
    requires At(w, pid)
    ensures forall progress :: Goes(w, pid, progress).toldDefaults == w.toldDefaults
    ensures forall fingerprint, answer :: Replies(w, pid, fingerprint, answer).toldDefaults == w.toldDefaults
  {
  }

  lemma CreateTellsNothing(fp: Fingerprinter, w: World, pid: nat, fingerprint: Fingerprint, newId: nat)
    requires At(w, pid)
    ensures AfterCreate(fp, w, pid, fingerprint, newId).toldDefaults == w.toldDefaults
  {
    hide Goes, Replies, Stored, DefaultsOf, Resolved;
    var (after, job) := Submitted(w, w.processes[pid].request, newId);
    MovesTellNothing(after, pid);
  }

  lemma RememberTellsNothing(w: World, pid: nat, fingerprint: Fingerprint, job: nat, status: nat)
    requires At(w, pid) && w.processes[pid].request.key.Some?
    ensures AfterRemember(w, pid, fingerprint, job, status).toldDefaults == w.toldDefaults
  {
    hide Told;
  }

  lemma OnlyReadsAreRemembered(fp: Fingerprinter, w: World, e: Event)
    requires Enabled(w, e) && !e.Defaults?
    ensures Step(fp, w, e).toldDefaults == w.toldDefaults
  {
    hide Told, Answers, Stored, AfterDefaults, AfterCreate, AfterRemember, CanRead, Goes, Replies;
    if !e.Arrive? && !e.SetDefaults? { MovesTellNothing(w, e.pid); }
    match e {
      case Create(pid, newId) => CreateTellsNothing(fp, w, pid, w.processes[pid].progress.fingerprint, newId);
      case Remember(pid) =>
        RememberTellsNothing(w, pid, w.processes[pid].progress.fingerprint, w.processes[pid].progress.job, w.processes[pid].progress.status);
      case _ =>
    }
  }

  lemma StepRemembersDefaults(fp: Fingerprinter, w: World, e: Event, project: Slot)
    requires Enabled(w, e)
    ensures ToldDefaults(w, project) <= ToldDefaults(Step(fp, w, e), project)
  {
    hide AfterCache, AfterFetch, AfterFind, AfterCreate, AfterRemember, DefaultsRead, CanRead, Resolved, Told, Answers;
    if !e.Defaults? { OnlyReadsAreRemembered(fp, w, e); }
  }

  lemma {:induction false} RunRemembersDefaults(fp: Fingerprinter, w: World, events: seq<Event>, project: Slot)
    ensures ToldDefaults(w, project) <= ToldDefaults(Run(fp, w, events), project)
  {
    if events != [] {
      hide Enabled, Step, ToldDefaults;
      var v, e := Run(fp, w, events[..|events| - 1]), events[|events| - 1];
      RunRemembersDefaults(fp, w, events[..|events| - 1], project);
      if Enabled(v, e) { StepRemembersDefaults(fp, v, e, project); }
    }
  }

  /** After it, and whatever happens next, the org's cache may answer its API keys with the other org's
      defaults, and refuse them by their own jobs wherever those hash otherwise than the org's. */
  lemma OtherOrgsDefaultsAreRemembered(fp: Fingerprinter, a: string, b: string, project: string, script: string, key: string, d: Options,
      more: seq<Event>, r: Request)
    requires a != b && r.org == a && r.project == project && r.visible == {a}
    ensures var v := Run(fp, Start(), FirstSubmission(a, b, project, script, key, d) + more);
      && CanRead(v, r, Some(d), None)
      && (HashOf(fp, r, d) != HashOf(fp, r, DefaultsOf(v, ProjectOf(r))) ==> !EveryReadAgrees(fp, v, r))
  {
    hide Run, Then, HashOf, ToldDefaults, FirstSubmission, DefaultsOf, EveryReadAgrees;
    var w, first := Arrived(a, b, project, script, key, d), FirstSubmission(a, b, project, script, key, d);
    FirstSubmissionIsRun(fp, a, b, project, script, key, d);
    ReadsTheOther(fp, a, b, project, script, key, d);
    ReadStep(fp, w, 0, None, Some(b));
    var read := Then(fp, w, Defaults(0, None, Some(b)));
    NowTold(w, read, Slot(a, project), d);
    RunRemembersDefaults(fp, read, [Cache(0, None), Find(0, None), Create(0, 0)], Slot(a, project));
    RunRemembersDefaults(fp, Run(fp, Start(), first), more, Slot(a, project));
    RunTwo(fp, Start(), first, more);
    EveryReadAgreesExactlyWhen(fp, Run(fp, Start(), first + more), r);
  }

  lemma NowTold(w: World, v: World, project: Slot, d: Options)
    requires v.toldDefaults == w.toldDefaults[project := ToldDefaults(w, project) + {d}]
    ensures d in ToldDefaults(v, project)
  {
  }
}
