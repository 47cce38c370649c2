/**
 The scheduler of automatic certificates (certs.go), as a transition system: the worker starts jobs, jobs
 run beside each other, configurations are applied at any time, and handshakes read a published view.
 The mutex mu is taken, its holder publishes the view and then releases it, each as an action of its own;
 what the holder does in between is seen by nobody else, so it happens as the mutex is taken. The mutex
 applyMu spans several such sections.
 */
module CertJobs {
  import opened Wrappers

  const MAX_PARALLEL_JOBS := 4

  const CERT_ATTEMPTS := 3

  type Name = string

  /** A certificate a job got. now is history: the configuration that was current when it was written. */
  datatype Cert = Cert(job: nat, cfg: nat, epoch: nat, now: (Option<nat>, nat))

  datatype Progress =
    | Started
    | Issuing
    | Commit
    | Checking
    | Writing
    | Written
    | Stored(ok: bool)
    | Cleanup(ok: bool)
    | Attempted(ok: bool)
    | Finishing
    | Leaving
    | Gone

  /**
   A job for a name, under the configuration and the context it was started with. pending is history:
   it has put a challenge into the map and not removed it.
   */
  datatype Job = Job(name: Name, cfg: nat, epoch: nat, attempt: nat, pending: bool, at: Progress)

  datatype Applying = Called | Locked | Cancelled | Loading | Over

  /** A call of Apply; accepted says whether the local CAs and the scripts check out. */
  datatype Apply = Apply(cfg: nat, accepted: bool, at: Applying)

  datatype Owner = Worker | Applier(i: nat) | JobOf(j: nat) | Other

  /**
   The other maps a handshake reads: names the script accepted, is yet to be asked about and refused, and
   placeholder certificates, by number.
   */
  datatype Others = Others(
    dynamic: set<Name>, candidates: set<Name>, rejected: map<Name, int>, placeholders: map<string, nat>)

  datatype View = View(cfg: Option<nat>, auto: map<Name, Cert>, challenges: map<Name, nat>, others: Others)

  /**
   cfg: the current configuration (its pointer). epoch: which context is current; every earlier one is
   cancelled. inFlight and challenges say which job (history; the source keeps a flag and an answer).
   */
  datatype State = State(
    cfg: Option<nat>, epoch: nat, auto: map<Name, Cert>, challenges: map<Name, nat>, others: Others,
    inFlight: map<Name, nat>, disk: map<Name, Cert>, view: View, mu: Option<Owner>, published: bool, applyMu: Option<Owner>,
    jobs: seq<Job>, applies: seq<Apply>)
  {
    function Maps(): View { View(cfg, auto, challenges, others) }

    function With(j: nat, at: Progress): (r: State)
      requires j < |jobs|
      ensures r.auto == auto && r.disk == disk
    {
      this.(jobs := jobs[j := jobs[j].(at := at)])
    }

    function WithApply(i: nat, at: Applying): State
      requires i < |applies|
    {
      this.(applies := applies[i := applies[i].(at := at)])
    }

    /** o takes mu. */
    function Taken(o: Owner): (r: State)
      ensures r.auto == auto && r.disk == disk
    {
      this.(mu := Some(o), published := false)
    }

    /** The job's configuration and context are the current ones. */
    predicate Current(j: nat)
      requires j < |jobs|
    {
      cfg == Some(jobs[j].cfg) && epoch == jobs[j].epoch
    }
  }

  /**
   JobStep goes on, JobFail is a failure where there can be one, Challenge and Finalize are what an order
   asks for. expired: the attempt's own deadline has passed. GiveUp is an error that repeating would not
   help, Refuse the answer of the rule's script. Change is whatever the holder of mu does to the other maps.
   */
  datatype Action =
    | Publish
    | Release
    | StartJob(cfg: nat, name: Name)
    | JobStep(j: nat, expired: bool)
    | JobFail(j: nat)
    | Challenge(j: nat, expired: bool)
    | Finalize(j: nat)
    | GiveUp(j: nat)
    | Refuse(j: nat)
    | CallApply(cfg: nat, accepted: bool)
    | ApplyStep(i: nat)
    | Load(i: nat, name: Name)
    | Adopt(name: Name)
    | Remove(name: Name)
    | Change(others: Others)

  /** A new job for a name that is not in flight. */
  function Starting(s: State, cfg: nat, name: Name): State {
    s.(inFlight := s.inFlight[name := |s.jobs|], jobs := s.jobs + [Job(name, cfg, s.epoch, 1, false, Started)])
  }

  /** startJob's critical section. */
  function Start(s: State, cfg: nat, name: Name): State {
    if s.mu.Some? then s
    else if s.cfg != Some(cfg) || name in s.inFlight || |s.inFlight| >= MAX_PARALLEL_JOBS then s.Taken(Worker)
    else Starting(s.Taken(Worker), cfg, name)
  }

  /** After an attempt: out if the configuration is cancelled, else done, or the next attempt. */
  function AfterAttempt(s: State, j: nat, ok: bool): (r: State)
    requires j < |s.jobs|
    ensures r.auto == s.auto && r.disk == s.disk
  {
    var k := s.jobs[j];
    if s.epoch != k.epoch then s.With(j, Leaving)
    else if ok || k.attempt >= CERT_ATTEMPTS then s.With(j, Finishing)
    else s.(jobs := s.jobs[j := k.(at := Issuing, attempt := k.attempt + 1)])
  }

  /** The next step of job j that needs no mutex, or one it holds already. */
  function JobOn(s: State, j: nat): State
    requires j < |s.jobs|
  {
    var k := s.jobs[j];
    match k.at
    case Commit => if s.applyMu.None? then s.With(j, Checking).(applyMu := Some(JobOf(j))) else s
    case Writing => s.With(j, Written).(disk := s.disk[k.name := Cert(j, k.cfg, k.epoch, (s.cfg, s.epoch))])
    case Stored(ok) => s.With(j, Cleanup(ok)).(applyMu := None)
    case Cleanup(ok) => if k.pending then s else s.With(j, Attempted(ok))
    case Attempted(ok) => AfterAttempt(s, j, ok)
    case _ => s
  }

  /** A job ends, and its name may be started again. */
  function Leave(s: State, j: nat): State
    requires j < |s.jobs|
  {
    s.With(j, Gone).(inFlight := s.inFlight - {s.jobs[j].name})
  }

  /** The next step of job j that takes mu, or reads under it. */
  function JobUnderMu(s: State, j: nat, expired: bool): State
    requires j < |s.jobs|
  {
    var k := s.jobs[j];
    if s.mu.Some? then s
    else
      match k.at
      case Started => s.With(j, if s.Current(j) then Issuing else Leaving)
      case Checking => s.With(j, if s.Current(j) && !expired then Writing else Stored(false))
      case Written =>
        if k.name in s.disk then s.With(j, Stored(true)).(auto := s.auto[k.name := s.disk[k.name]]).Taken(JobOf(j))
        else s.With(j, Stored(false))
      case Cleanup(ok) =>
        if k.pending then
          s.(jobs := s.jobs[j := k.(pending := false)], challenges := s.challenges - {k.name}).Taken(JobOf(j))
        else s
      case Finishing => s.With(j, Leaving).Taken(JobOf(j))
      case Leaving => Leave(s.Taken(JobOf(j)), j)
      case _ => s
  }

  function ApplyOn(s: State, i: nat): State
    requires i < |s.applies|
  {
    var a := s.applies[i];
    match a.at
    case Called => if s.applyMu.None? then s.WithApply(i, Locked).(applyMu := Some(Applier(i))) else s
    case Locked =>
      if !a.accepted then s.WithApply(i, Over).(applyMu := None)
      else if s.mu.Some? then s
      else s.WithApply(i, Cancelled).(epoch := s.epoch + 1).Taken(Applier(i))
    case Cancelled => s.WithApply(i, Loading).(cfg := Some(a.cfg))
    case Loading => if s.mu == Some(Applier(i)) then s else s.WithApply(i, Over).(applyMu := None)
    case Over => s
  }

  /** The holder of mu is not between its changes. */
  predicate MayPublish(s: State) {
    s.mu.Some? && (s.mu.value.Applier? && s.mu.value.i < |s.applies| ==> !s.applies[s.mu.value.i].at.Cancelled?)
  }

  /** The job is not inside a critical section, whose end comes first. */
  predicate Free(s: State, j: nat) { j < |s.jobs| && s.mu != Some(JobOf(j)) }

  function Do(s: State, a: Action): State {
    match a
    case Publish => if MayPublish(s) && !s.published then s.(view := s.Maps(), published := true) else s
    case Release => if s.mu.Some? && s.published then s.(mu := None) else s
    case StartJob(cfg, name) => Start(s, cfg, name)
    case JobStep(j, expired) =>
      if !Free(s, j) then s else if JobOn(s, j) != s then JobOn(s, j) else JobUnderMu(s, j, expired)
    case JobFail(j) =>
      if !Free(s, j) then s
      else if s.jobs[j].at.Issuing? then s.With(j, Cleanup(false))
      else if s.jobs[j].at.Writing? then s.With(j, Stored(false))
      else s
    case Challenge(j, expired) =>
      if !Free(s, j) || !s.jobs[j].at.Issuing? || s.mu.Some? then s
      else if !s.Current(j) || expired then s.With(j, Cleanup(false)).Taken(JobOf(j))
      else
        s.(jobs := s.jobs[j := s.jobs[j].(pending := true)], challenges := s.challenges[s.jobs[j].name := j]).Taken(JobOf(j))
    case Finalize(j) => if Free(s, j) && s.jobs[j].at.Issuing? then s.With(j, Commit) else s
    case GiveUp(j) => if Free(s, j) && s.jobs[j].at == Attempted(false) then s.With(j, Finishing) else s
    case Refuse(j) =>
      if Free(s, j) && s.jobs[j].at.Issuing? && !s.jobs[j].pending && s.mu.None? && s.Current(j) then
        s.With(j, Leaving).(auto := s.auto - {s.jobs[j].name}).Taken(JobOf(j))
      else s
    case CallApply(cfg, accepted) => s.(applies := s.applies + [Apply(cfg, accepted, Called)])
    case ApplyStep(i) => if i < |s.applies| then ApplyOn(s, i) else s
    case Load(i, name) =>
      if i < |s.applies| && s.applies[i].at.Loading? && s.mu.None? && name in s.disk then
        s.(auto := s.auto[name := s.disk[name]]).Taken(Applier(i))
      else s
    case Adopt(name) =>
      if s.mu.Some? then s
      else if name in s.disk then s.(auto := s.auto[name := s.disk[name]]).Taken(Other)
      else s.Taken(Other)
    case Remove(name) =>
      if s.mu.Some? then s
      else if name in s.inFlight then s.Taken(Other)
      else s.(auto := s.auto - {name}, disk := s.disk - {name}).Taken(Other)
    case Change(others) => if s.mu.Some? && !s.published then s.(others := others) else s
  }

  function Execute(s: State, actions: seq<Action>): State
    decreases |actions|
  {
    if actions == [] then s else Execute(Do(s, actions[0]), actions[1..])
  }

  const NO_OTHERS := Others({}, {}, map[], map[])

  const START := State(None, 0, map[], map[], NO_OTHERS, map[], map[], View(None, map[], map[], NO_OTHERS), None, false,
                       None, [], [])

  // ----- What every run keeps -----

  /** Between the check and the end of the commit. */
  predicate Committing(k: Job) { k.at.Writing? || k.at.Written? }

  /** A job that is not gone is the one in flight for its name; while it commits, its configuration stays. */
  ghost predicate JobOk(s: State, j: nat)
    requires j < |s.jobs|
  {
    var k := s.jobs[j];
    (if k.at.Gone? then !k.pending else k.name in s.inFlight && s.inFlight[k.name] == j) &&
    (k.at.Attempted? || k.at.Finishing? || k.at.Leaving? || k.at.Started? ==> !k.pending) &&
    (k.at.Checking? || k.at.Stored? || Committing(k) ==> s.applyMu == Some(JobOf(j))) &&
    (Committing(k) ==> s.Current(j)) && 1 <= k.attempt <= 3
  }

  /** A call that is between taking applyMu and releasing it holds it. */
  ghost predicate ApplyOk(s: State, i: nat)
    requires i < |s.applies|
  {
    var a := s.applies[i];
    (a.at.Locked? || a.at.Cancelled? || a.at.Loading? ==> s.applyMu == Some(Applier(i))) &&
    (a.at.Cancelled? ==> s.mu == Some(Applier(i)) && !s.published)
  }

  ghost predicate FlightOk(s: State, name: Name, j: nat) {
    j < |s.jobs| && s.jobs[j].name == name && !s.jobs[j].at.Gone?
  }

  ghost predicate ChallengeOk(s: State, name: Name, j: nat) {
    j < |s.jobs| && s.jobs[j].name == name && s.jobs[j].pending
  }

  /** Written under the configuration it was got for. */
  predicate CertOk(c: Cert) { c.now == (Some(c.cfg), c.epoch) }

  ghost predicate Inv(s: State) {
    (forall j: nat :: j < |s.jobs| ==> JobOk(s, j)) &&
    (forall i: nat :: i < |s.applies| ==> ApplyOk(s, i)) &&
    (forall n :: n in s.inFlight ==> FlightOk(s, n, s.inFlight[n])) &&
    (forall n :: n in s.challenges ==> ChallengeOk(s, n, s.challenges[n])) &&
    (forall n :: n in s.disk ==> CertOk(s.disk[n])) && (forall n :: n in s.auto ==> CertOk(s.auto[n])) &&
    |s.inFlight| <= MAX_PARALLEL_JOBS && (s.mu.None? || s.published ==> s.view == s.Maps())
  }

  /** One job changes; which one is in flight for its name does not. */
  lemma JobKeepsInv(s: State, t: State, j: nat)
    requires Inv(s) && j < |s.jobs| == |t.jobs| && JobOk(t, j)
    requires forall i :: 0 <= i < |s.jobs| && i != j ==> t.jobs[i] == s.jobs[i]
    requires t.jobs[j].name == s.jobs[j].name && !t.jobs[j].at.Gone? && t.inFlight == s.inFlight
    requires t.cfg == s.cfg && t.epoch == s.epoch && t.applies == s.applies
    requires t.applyMu == s.applyMu || s.applyMu == None || s.applyMu == Some(JobOf(j))
    requires t.mu == s.mu || (s.mu.None? && t.mu == Some(JobOf(j)) && !t.published)
    requires t.mu == s.mu ==> t.published == s.published && t.view == s.view && t.Maps() == s.Maps()
    requires forall n :: n in t.disk ==> CertOk(t.disk[n])
    requires forall n :: n in t.auto ==> CertOk(t.auto[n])
    requires forall n :: n in t.challenges ==> ChallengeOk(t, n, t.challenges[n])
    ensures Inv(t)
  {
    forall i: nat | i < |t.jobs| ensures JobOk(t, i) {
      assert JobOk(s, i);
    }
    forall i: nat | i < |t.applies| ensures ApplyOk(t, i) {
      assert ApplyOk(s, i);
    }
    forall n | n in t.inFlight ensures FlightOk(t, n, t.inFlight[n]) {
      assert FlightOk(s, n, s.inFlight[n]);
    }
  }

  lemma ChallengesStay(s: State, j: nat, k: Job)
    requires Inv(s) && j < |s.jobs| && k.name == s.jobs[j].name && k.pending == s.jobs[j].pending
    ensures var t := s.(jobs := s.jobs[j := k]);
      forall n :: n in s.challenges ==> ChallengeOk(t, n, s.challenges[n])
  {
    forall n | n in s.challenges ensures ChallengeOk(s.(jobs := s.jobs[j := k]), n, s.challenges[n]) {
      assert ChallengeOk(s, n, s.challenges[n]);
    }
  }

  /** A job moves on by itself. */
  lemma MoveKeepsInv(s: State, j: nat, k: Job)
    requires Inv(s) && j < |s.jobs| && k.name == s.jobs[j].name && k.pending == s.jobs[j].pending && !k.at.Gone?
    requires JobOk(s.(jobs := s.jobs[j := k]), j)
    ensures Inv(s.(jobs := s.jobs[j := k]))
  {
    ChallengesStay(s, j, k);
    JobKeepsInv(s, s.(jobs := s.jobs[j := k]), j);
  }

  lemma SameJobs(s: State, t: State)
    requires Inv(s) && t.jobs == s.jobs && t.inFlight == s.inFlight && t.challenges == s.challenges
    ensures forall n :: n in t.inFlight ==> FlightOk(t, n, t.inFlight[n])
    ensures forall n :: n in t.challenges ==> ChallengeOk(t, n, t.challenges[n])
  {
    forall n | n in t.inFlight ensures FlightOk(t, n, t.inFlight[n]) {
      assert FlightOk(s, n, s.inFlight[n]);
    }
    forall n | n in t.challenges ensures ChallengeOk(t, n, t.challenges[n]) {
      assert ChallengeOk(s, n, s.challenges[n]);
    }
  }

  /** Taking mu changes nothing else. */
  lemma TakeKeepsInv(s: State, o: Owner)
    requires Inv(s) && s.mu.None?
    ensures Inv(s.Taken(o))
  {
    var t := s.Taken(o);
    forall i: nat | i < |t.jobs| ensures JobOk(t, i) {
      assert JobOk(s, i);
    }
    forall i: nat | i < |t.applies| ensures ApplyOk(t, i) {
      assert ApplyOk(s, i);
    }
    SameJobs(s, t);
  }

  /** Under mu the certificates in use may change to any that were written as they should. */
  lemma AutoKeepsInv(s: State, auto: map<Name, Cert>, disk: map<Name, Cert>)
    requires Inv(s) && s.mu.Some? && !s.published
    requires forall n :: n in auto ==> CertOk(auto[n])
    requires forall n :: n in disk ==> CertOk(disk[n])
    ensures Inv(s.(auto := auto, disk := disk))
  {
    var t := s.(auto := auto, disk := disk);
    forall i: nat | i < |t.jobs| ensures JobOk(t, i) {
      assert JobOk(s, i);
    }
    forall i: nat | i < |t.applies| ensures ApplyOk(t, i) {
      assert ApplyOk(s, i);
    }
    SameJobs(s, t);
  }

  lemma CommitKeepsInv(s: State, j: nat)
    requires Inv(s) && j < |s.jobs| && s.jobs[j].at.Commit? && s.applyMu.None?
    ensures Inv(s.With(j, Checking).(applyMu := Some(JobOf(j))))
  {
    var t := s.With(j, Checking).(applyMu := Some(JobOf(j)));
    assert JobOk(s, j);
    ChallengesStay(s, j, t.jobs[j]);
    JobKeepsInv(s, t, j);
  }

  lemma WriteKeepsInv(s: State, j: nat, c: Cert)
    requires Inv(s) && j < |s.jobs| && s.jobs[j].at.Writing? && CertOk(c)
    ensures Inv(s.With(j, Written).(disk := s.disk[s.jobs[j].name := c]))
  {
    var t := s.With(j, Written).(disk := s.disk[s.jobs[j].name := c]);
    assert JobOk(s, j);
    ChallengesStay(s, j, t.jobs[j]);
    JobKeepsInv(s, t, j);
  }

  lemma StoredKeepsInv(s: State, j: nat, ok: bool)
    requires Inv(s) && j < |s.jobs| && s.jobs[j].at.Stored?
    ensures Inv(s.With(j, Cleanup(ok)).(applyMu := None))
  {
    var t := s.With(j, Cleanup(ok)).(applyMu := None);
    assert JobOk(s, j);
    ChallengesStay(s, j, t.jobs[j]);
    JobKeepsInv(s, t, j);
  }

  lemma JobOnKeepsInv(s: State, j: nat)
    requires Inv(s) && Free(s, j)
    ensures Inv(JobOn(s, j))
  {
    assert JobOk(s, j);
    var k := s.jobs[j];
    match k.at {
      case Commit =>
        if s.applyMu.None? {
          CommitKeepsInv(s, j);
        }
      case Writing => WriteKeepsInv(s, j, Cert(j, k.cfg, k.epoch, (s.cfg, s.epoch)));
      case Stored(ok) => StoredKeepsInv(s, j, ok);
      case Cleanup(ok) =>
        if !k.pending {
          MoveKeepsInv(s, j, k.(at := Attempted(ok)));
        }
      case Attempted(ok) => AttemptedKeepsInv(s, j);
      case _ =>
    }
  }

  lemma AttemptedKeepsInv(s: State, j: nat)
    requires Inv(s) && j < |s.jobs| && s.jobs[j].at.Attempted?
    ensures Inv(AfterAttempt(s, j, s.jobs[j].at.ok))
  {
    assert JobOk(s, j);
    var k := s.jobs[j];
    if s.epoch != k.epoch {
      MoveKeepsInv(s, j, k.(at := Leaving));
    } else if k.at.ok || k.attempt >= CERT_ATTEMPTS {
      MoveKeepsInv(s, j, k.(at := Finishing));
    } else {
      MoveKeepsInv(s, j, k.(at := Issuing, attempt := k.attempt + 1));
    }
  }

  lemma RemoveChallengeKeepsInv(s: State, j: nat)
    requires Inv(s) && j < |s.jobs| && s.mu.None? && s.jobs[j].at.Cleanup?
    ensures Inv(
      s.(jobs := s.jobs[j := s.jobs[j].(pending := false)], challenges := s.challenges - {s.jobs[j].name}).Taken(JobOf(j)))
  {
    var t :=
      s.(jobs := s.jobs[j := s.jobs[j].(pending := false)], challenges := s.challenges - {s.jobs[j].name}).Taken(JobOf(j));
    assert JobOk(s, j);
    forall n | n in t.challenges ensures ChallengeOk(t, n, t.challenges[n]) {
      assert ChallengeOk(s, n, s.challenges[n]);
    }
    JobKeepsInv(s, t, j);
  }

  lemma AddChallengeKeepsInv(s: State, j: nat)
    requires Inv(s) && j < |s.jobs| && s.mu.None? && s.jobs[j].at.Issuing?
    ensures Inv(
      s.(jobs := s.jobs[j := s.jobs[j].(pending := true)], challenges := s.challenges[s.jobs[j].name := j]).Taken(JobOf(j)))
  {
    var t :=
      s.(jobs := s.jobs[j := s.jobs[j].(pending := true)], challenges := s.challenges[s.jobs[j].name := j]).Taken(JobOf(j));
    assert JobOk(s, j);
    forall n | n in t.challenges ensures ChallengeOk(t, n, t.challenges[n]) {
      assert n in s.challenges ==> ChallengeOk(s, n, s.challenges[n]);
    }
    JobKeepsInv(s, t, j);
  }

  lemma LeaveKeepsJobs(s: State, j: nat, i: nat)
    requires Inv(s) && j < |s.jobs| && s.jobs[j].at.Leaving? && i < |s.jobs|
    ensures JobOk(Leave(s, j), i)
  {
    assert JobOk(s, i) && JobOk(s, j);
    if i != j {
      assert Leave(s, j).jobs[i] == s.jobs[i];
    }
  }

  lemma LeaveKeepsFlights(s: State, j: nat)
    requires Inv(s) && j < |s.jobs| && s.jobs[j].at.Leaving?
    ensures var t := Leave(s, j);
      |t.inFlight| <= MAX_PARALLEL_JOBS && forall n :: n in t.inFlight ==> FlightOk(t, n, t.inFlight[n])
  {
    var t := Leave(s, j);
    assert t.inFlight.Keys <= s.inFlight.Keys;
    Fewer(t.inFlight.Keys, s.inFlight.Keys);
    assert JobOk(s, j);
    forall n | n in t.inFlight ensures FlightOk(t, n, t.inFlight[n]) {
      assert FlightOk(s, n, s.inFlight[n]);
    }
  }

  lemma LeaveKeepsInv(s: State, j: nat)
    requires Inv(s) && j < |s.jobs| && s.mu.Some? && !s.published && s.jobs[j].at.Leaving?
    ensures Inv(Leave(s, j))
  {
    var t := Leave(s, j);
    forall i: nat | i < |t.jobs| ensures JobOk(t, i) {
      LeaveKeepsJobs(s, j, i);
    }
    forall i: nat | i < |t.applies| ensures ApplyOk(t, i) {
      assert ApplyOk(s, i);
    }
    LeaveKeepsFlights(s, j);
    ChallengesStay(s, j, t.jobs[j]);
  }

  lemma Fewer(a: set<Name>, b: set<Name>)
    requires a <= b
    ensures |a| <= |b|
  {
    assert b == a + (b - a);
  }

  lemma InstallKeepsInv(s: State, j: nat)
    requires Inv(s) && j < |s.jobs| && s.mu.None? && s.jobs[j].at.Written? && s.jobs[j].name in s.disk
    ensures var name := s.jobs[j].name;
      Inv(s.With(j, Stored(true)).(auto := s.auto[name := s.disk[name]]).Taken(JobOf(j)))
  {
    var name := s.jobs[j].name;
    var t := s.With(j, Stored(true));
    assert JobOk(s, j);
    MoveKeepsInv(s, j, s.jobs[j].(at := Stored(true)));
    TakeKeepsInv(t, JobOf(j));
    AutoKeepsInv(t.Taken(JobOf(j)), s.auto[name := s.disk[name]], s.disk);
  }

  lemma CheckKeepsInv(s: State, j: nat, expired: bool)
    requires Inv(s) && j < |s.jobs| && s.mu.None? && (s.jobs[j].at.Started? || s.jobs[j].at.Checking?)
    ensures Inv(JobUnderMu(s, j, expired))
  {
    assert JobOk(s, j);
    var k := s.jobs[j];
    if k.at.Started? {
      MoveKeepsInv(s, j, k.(at := if s.Current(j) then Issuing else Leaving));
    } else {
      MoveKeepsInv(s, j, k.(at := if s.Current(j) && !expired then Writing else Stored(false)));
    }
  }

  lemma WrittenKeepsInv(s: State, j: nat, expired: bool)
    requires Inv(s) && j < |s.jobs| && s.mu.None? && s.jobs[j].at.Written?
    ensures Inv(JobUnderMu(s, j, expired))
  {
    assert JobOk(s, j);
    if s.jobs[j].name in s.disk {
      InstallKeepsInv(s, j);
    } else {
      MoveKeepsInv(s, j, s.jobs[j].(at := Stored(false)));
    }
  }

  lemma JobUnderMuKeepsInv(s: State, j: nat, expired: bool)
    requires Inv(s) && j < |s.jobs|
    ensures Inv(JobUnderMu(s, j, expired))
  {
    assert JobOk(s, j);
    var k := s.jobs[j];
    if s.mu.None? {
      match k.at {
        case Started => CheckKeepsInv(s, j, expired);
        case Checking => CheckKeepsInv(s, j, expired);
        case Written => WrittenKeepsInv(s, j, expired);
        case Cleanup(_) =>
          if k.pending {
            RemoveChallengeKeepsInv(s, j);
          }
        case Finishing =>
          MoveKeepsInv(s, j, k.(at := Leaving));
          TakeKeepsInv(s.With(j, Leaving), JobOf(j));
        case Leaving =>
          TakeKeepsInv(s, JobOf(j));
          LeaveKeepsInv(s.Taken(JobOf(j)), j);
        case _ =>
      }
    }
  }

  lemma StartKeepsJobs(s: State, cfg: nat, name: Name, i: nat)
    requires Inv(s) && name !in s.inFlight && i <= |s.jobs|
    ensures JobOk(Starting(s, cfg, name), i)
  {
    if i < |s.jobs| {
      assert JobOk(s, i) && Starting(s, cfg, name).jobs[i] == s.jobs[i];
    }
  }

  lemma StartKeepsFlights(s: State, cfg: nat, name: Name)
    requires Inv(s) && name !in s.inFlight && |s.inFlight| < MAX_PARALLEL_JOBS
    ensures var t := Starting(s, cfg, name);
      |t.inFlight| <= MAX_PARALLEL_JOBS && forall n :: n in t.inFlight ==> FlightOk(t, n, t.inFlight[n])
  {
    var t := Starting(s, cfg, name);
    assert t.inFlight.Keys == s.inFlight.Keys + {name};
    forall n | n in t.inFlight ensures FlightOk(t, n, t.inFlight[n]) {
      assert n != name ==> FlightOk(s, n, s.inFlight[n]);
    }
  }

  lemma StartKeepsInv(s: State, cfg: nat, name: Name)
    requires Inv(s) && s.mu.Some? && !s.published && s.cfg == Some(cfg) && name !in s.inFlight
    requires |s.inFlight| < MAX_PARALLEL_JOBS
    ensures Inv(Starting(s, cfg, name))
  {
    var t := Starting(s, cfg, name);
    forall i: nat | i < |t.jobs| ensures JobOk(t, i) {
      StartKeepsJobs(s, cfg, name, i);
    }
    forall i: nat | i < |t.applies| ensures ApplyOk(t, i) {
      assert ApplyOk(s, i);
    }
    StartKeepsFlights(s, cfg, name);
    forall n | n in t.challenges ensures ChallengeOk(t, n, t.challenges[n]) {
      assert ChallengeOk(s, n, s.challenges[n]);
    }
  }

  /** A call of Apply moves, and with it at most applyMu and the current configuration. */
  lemma ApplyMoves(s: State, t: State, i: nat)
    requires Inv(s) && i < |s.applies| == |t.applies| && ApplyOk(t, i)
    requires forall k :: 0 <= k < |s.applies| && k != i ==> t.applies[k] == s.applies[k]
    requires t == s.(applies := t.applies, applyMu := t.applyMu, cfg := t.cfg, epoch := t.epoch)
    requires t.applyMu == s.applyMu || s.applyMu == None || s.applyMu == Some(Applier(i))
    requires t.Maps() == s.Maps() || (s.mu.Some? && !s.published)
    requires (t.cfg == s.cfg && t.epoch == s.epoch) || s.applyMu == Some(Applier(i))
    ensures Inv(t)
  {
    SameJobs(s, t);
    forall j: nat | j < |t.jobs| ensures JobOk(t, j) {
      assert JobOk(s, j);
    }
    forall k: nat | k < |t.applies| ensures ApplyOk(t, k) {
      assert ApplyOk(s, k);
    }
  }

  lemma LockKeepsInv(s: State, i: nat)
    requires Inv(s) && i < |s.applies| && s.applies[i].at.Called? && s.applyMu.None?
    ensures Inv(s.WithApply(i, Locked).(applyMu := Some(Applier(i))))
  {
    ApplyMoves(s, s.WithApply(i, Locked).(applyMu := Some(Applier(i))), i);
  }

  lemma UnlockKeepsInv(s: State, i: nat)
    requires Inv(s) && i < |s.applies| && (s.applies[i].at.Locked? || s.applies[i].at.Loading?)
    ensures Inv(s.WithApply(i, Over).(applyMu := None))
  {
    assert ApplyOk(s, i);
    ApplyMoves(s, s.WithApply(i, Over).(applyMu := None), i);
  }

  lemma ConfigKeepsInv(s: State, i: nat)
    requires Inv(s) && i < |s.applies| && s.applies[i].at.Cancelled?
    ensures Inv(s.WithApply(i, Loading).(cfg := Some(s.applies[i].cfg)))
  {
    assert ApplyOk(s, i);
    ApplyMoves(s, s.WithApply(i, Loading).(cfg := Some(s.applies[i].cfg)), i);
  }

  /** While a configuration is applied nobody commits. */
  lemma ApplyKeepsInv(s: State, i: nat)
    requires Inv(s) && i < |s.applies|
    ensures Inv(ApplyOn(s, i))
  {
    var a := s.applies[i];
    assert ApplyOk(s, i);
    match a.at {
      case Called =>
        if s.applyMu.None? {
          LockKeepsInv(s, i);
        }
      case Locked => LockedKeepsInv(s, i);
      case Cancelled => ConfigKeepsInv(s, i);
      case Loading => UnlockKeepsInv(s, i);
      case Over =>
    }
  }

  lemma LockedKeepsInv(s: State, i: nat)
    requires Inv(s) && i < |s.applies| && s.applies[i].at.Locked?
    ensures Inv(ApplyOn(s, i))
  {
    if !s.applies[i].accepted {
      UnlockKeepsInv(s, i);
    } else if s.mu.None? {
      CancelKeepsInv(s, i);
    }
  }

  lemma CancelKeepsInv(s: State, i: nat)
    requires Inv(s) && i < |s.applies| && s.mu.None? && s.applies[i].at.Locked?
    ensures Inv(s.WithApply(i, Cancelled).(epoch := s.epoch + 1).Taken(Applier(i)))
  {
    assert ApplyOk(s, i);
    TakeKeepsInv(s, Applier(i));
    var t := s.Taken(Applier(i));
    assert ApplyOk(t, i);
    ApplyMoves(t, t.WithApply(i, Cancelled).(epoch := s.epoch + 1), i);
  }

  /** The view is published, or mu is released after that. */
  lemma ViewKeepsInv(s: State, t: State)
    requires Inv(s) && s.mu.Some?
    requires t == (if s.published then s.(mu := None) else s.(view := s.Maps(), published := true))
    requires !s.published ==> MayPublish(s)
    ensures Inv(t)
  {
    SameJobs(s, t);
    forall j: nat | j < |t.jobs| ensures JobOk(t, j) {
      assert JobOk(s, j);
    }
    forall k: nat | k < |t.applies| ensures ApplyOk(t, k) {
      assert ApplyOk(s, k);
    }
  }

  /** The other maps change while nobody looks. */
  lemma OthersKeepInv(s: State, others: Others)
    requires Inv(s) && s.mu.Some? && !s.published
    ensures Inv(s.(others := others))
  {
    var t := s.(others := others);
    SameJobs(s, t);
    forall j: nat | j < |t.jobs| ensures JobOk(t, j) {
      assert JobOk(s, j);
    }
    forall k: nat | k < |t.applies| ensures ApplyOk(t, k) {
      assert ApplyOk(s, k);
    }
  }

  lemma CallKeepsInv(s: State, a: Apply)
    requires Inv(s) && a.at.Called?
    ensures Inv(s.(applies := s.applies + [a]))
  {
    var t := s.(applies := s.applies + [a]);
    SameJobs(s, t);
    forall j: nat | j < |t.jobs| ensures JobOk(t, j) {
      assert JobOk(s, j);
    }
    forall k: nat | k < |t.applies| ensures ApplyOk(t, k) {
      assert k < |s.applies| ==> ApplyOk(s, k);
    }
  }

  /** The certificates in use change under mu. */
  lemma EditKeepsInv(s: State, o: Owner, auto: map<Name, Cert>, disk: map<Name, Cert>)
    requires Inv(s) && s.mu.None?
    requires forall n :: n in auto ==> CertOk(auto[n])
    requires forall n :: n in disk ==> CertOk(disk[n])
    ensures Inv(s.(auto := auto, disk := disk).Taken(o))
  {
    TakeKeepsInv(s, o);
    AutoKeepsInv(s.Taken(o), auto, disk);
  }

  lemma FailKeepsInv(s: State, j: nat)
    requires Inv(s)
    ensures Inv(Do(s, JobFail(j)))
  {
    if Free(s, j) && (s.jobs[j].at.Issuing? || s.jobs[j].at.Writing?) {
      assert JobOk(s, j);
      MoveKeepsInv(s, j, s.jobs[j].(at := if s.jobs[j].at.Issuing? then Cleanup(false) else Stored(false)));
    }
  }

  lemma ChallengeKeepsInv(s: State, j: nat, expired: bool)
    requires Inv(s)
    ensures Inv(Do(s, Challenge(j, expired)))
  {
    if Free(s, j) && s.jobs[j].at.Issuing? && s.mu.None? {
      assert JobOk(s, j);
      if !s.Current(j) || expired {
        MoveKeepsInv(s, j, s.jobs[j].(at := Cleanup(false)));
        TakeKeepsInv(s.With(j, Cleanup(false)), JobOf(j));
      } else {
        AddChallengeKeepsInv(s, j);
      }
    }
  }

  /** The job goes on to the end of the order, or gives up. */
  lemma GoOnKeepsInv(s: State, a: Action)
    requires Inv(s) && (a.Finalize? || a.GiveUp?)
    ensures Inv(Do(s, a))
  {
    if Free(s, a.j) && Do(s, a) != s {
      assert JobOk(s, a.j);
      MoveKeepsInv(s, a.j, s.jobs[a.j].(at := if a.Finalize? then Commit else Finishing));
    }
  }

  lemma RefuseKeepsInv(s: State, j: nat)
    requires Inv(s) && j < |s.jobs| && s.mu.None? && s.jobs[j].at.Issuing? && !s.jobs[j].pending
    ensures Inv(s.With(j, Leaving).(auto := s.auto - {s.jobs[j].name}).Taken(JobOf(j)))
  {
    assert JobOk(s, j);
    MoveKeepsInv(s, j, s.jobs[j].(at := Leaving));
    var t := s.With(j, Leaving);
    EditKeepsInv(t, JobOf(j), s.auto - {s.jobs[j].name}, s.disk);
  }

  /** A certificate on disk is put into use. */
  lemma UseKeepsInv(s: State, o: Owner, name: Name)
    requires Inv(s) && s.mu.None? && name in s.disk
    ensures Inv(s.(auto := s.auto[name := s.disk[name]]).Taken(o))
  {
    EditKeepsInv(s, o, s.auto[name := s.disk[name]], s.disk);
  }

  lemma RemoveKeepsInv(s: State, name: Name)
    requires Inv(s) && s.mu.None?
    ensures Inv(s.(auto := s.auto - {name}, disk := s.disk - {name}).Taken(Other))
  {
    EditKeepsInv(s, Other, s.auto - {name}, s.disk - {name});
  }

  lemma StartJobKeepsInv(s: State, cfg: nat, name: Name)
    requires Inv(s)
    ensures Inv(Start(s, cfg, name))
  {
    if s.mu.None? {
      TakeKeepsInv(s, Worker);
      if s.cfg == Some(cfg) && name !in s.inFlight && |s.inFlight| < MAX_PARALLEL_JOBS {
        StartKeepsInv(s.Taken(Worker), cfg, name);
      }
    }
  }

  lemma JobActionKeepsInv(s: State, a: Action)
    requires Inv(s) && (a.JobStep? || a.JobFail? || a.Challenge? || a.Finalize? || a.GiveUp? || a.Refuse?)
    ensures Inv(Do(s, a))
  {
    if a.JobStep? {
      if Free(s, a.j) {
        JobOnKeepsInv(s, a.j);
        JobUnderMuKeepsInv(s, a.j, a.expired);
      }
    } else if a.JobFail? {
      FailKeepsInv(s, a.j);
    } else if a.Challenge? {
      ChallengeKeepsInv(s, a.j, a.expired);
    } else if a.Finalize? || a.GiveUp? {
      GoOnKeepsInv(s, a);
    } else if Free(s, a.j) && s.jobs[a.j].at.Issuing? && !s.jobs[a.j].pending && s.mu.None? {
      RefuseKeepsInv(s, a.j);
    }
  }

  lemma LoadKeepsInv(s: State, i: nat, name: Name)
    requires Inv(s)
    ensures Inv(Do(s, Load(i, name)))
  {
    if s.mu.None? && name in s.disk {
      UseKeepsInv(s, Applier(i), name);
    }
  }

  lemma AdoptKeepsInv(s: State, name: Name)
    requires Inv(s)
    ensures Inv(Do(s, Adopt(name)))
  {
    if s.mu.None? {
      TakeKeepsInv(s, Other);
      if name in s.disk {
        UseKeepsInv(s, Other, name);
      }
    }
  }

  lemma DoKeepsInv(s: State, a: Action)
    requires Inv(s)
    ensures Inv(Do(s, a))
  {
    if a.StartJob? {
      StartJobKeepsInv(s, a.cfg, a.name);
    } else if a.Load? {
      LoadKeepsInv(s, a.i, a.name);
    } else if a.Adopt? {
      AdoptKeepsInv(s, a.name);
    } else if a.Remove? {
      if s.mu.None? {
        TakeKeepsInv(s, Other);
        RemoveKeepsInv(s, a.name);
      }
    } else if a.ApplyStep? {
      if a.i < |s.applies| {
        ApplyKeepsInv(s, a.i);
      }
    } else if a.CallApply? {
      CallKeepsInv(s, Apply(a.cfg, a.accepted, Called));
    } else if a.Publish? || a.Release? {
      if Do(s, a) != s {
        ViewKeepsInv(s, Do(s, a));
      }
    } else if a.Change? {
      if s.mu.Some? && !s.published {
        OthersKeepInv(s, a.others);
      }
    } else {
      JobActionKeepsInv(s, a);
    }
  }

  lemma {:induction false} EveryRun(s: State, actions: seq<Action>)
    requires Inv(s)
    ensures Inv(Execute(s, actions))
    decreases |actions|
  {
    if actions != [] {
      DoKeepsInv(s, actions[0]);
      EveryRun(Do(s, actions[0]), actions[1..]);
    }
  }

  // ----- What the scheduler guarantees -----

  /** In every run, at most four names are in flight. */
  lemma AtMostFour(actions: seq<Action>)
    ensures |Execute(START, actions).inFlight| <= MAX_PARALLEL_JOBS
  {
    EveryRun(START, actions);
  }

  /** In every run, two jobs that are not gone are for different names, and their names are in flight. */
  lemma OneJobPerName(actions: seq<Action>, i: nat, j: nat)
    ensures var s := Execute(START, actions);
      i < j < |s.jobs| && !s.jobs[i].at.Gone? && !s.jobs[j].at.Gone? ==>
        s.jobs[i].name != s.jobs[j].name && s.jobs[i].name in s.inFlight && s.jobs[j].name in s.inFlight
  {
    EveryRun(START, actions);
    var s := Execute(START, actions);
    if i < j < |s.jobs| {
      assert JobOk(s, i) && JobOk(s, j);
    }
  }

  /** In every run, a challenge is pending only for a name in flight. */
  lemma ChallengesAreInFlight(actions: seq<Action>, name: Name)
    ensures var s := Execute(START, actions);
      name in s.challenges ==> name in s.inFlight
  {
    EveryRun(START, actions);
    var s := Execute(START, actions);
    if name in s.challenges {
      assert ChallengeOk(s, name, s.challenges[name]);
      assert JobOk(s, s.challenges[name]);
    }
  }

  /** In every run, the published view is what the maps are whenever nobody holds mu. */
  lemma ViewIsCurrent(actions: seq<Action>)
    ensures var s := Execute(START, actions);
      s.mu.None? ==> s.view == View(s.cfg, s.auto, s.challenges, s.others)
  {
    EveryRun(START, actions);
  }

  lemma OnlyWritingWrites(s: State, j: nat)
    requires j < |s.jobs| && !s.jobs[j].at.Writing?
    ensures JobOn(s, j).auto == s.auto && JobOn(s, j).disk == s.disk
  {
  }

  lemma OnlyWrittenInstalls(s: State, j: nat, expired: bool)
    requires j < |s.jobs| && !s.jobs[j].at.Written?
    ensures JobUnderMu(s, j, expired).auto == s.auto && JobUnderMu(s, j, expired).disk == s.disk
  {
    if s.mu.None? {
      ChecksInstallNothing(s, j, expired);
    }
  }

  lemma ChecksInstallNothing(s: State, j: nat, expired: bool)
    requires j < |s.jobs| && s.mu.None? && !s.jobs[j].at.Written?
    ensures JobUnderMu(s, j, expired).auto == s.auto && JobUnderMu(s, j, expired).disk == s.disk
  {
    var at := s.jobs[j].at;
    if at.Cleanup? || at.Finishing? || at.Leaving? {
      EndsInstallNothing(s, j, expired);
    }
  }

  lemma EndsInstallNothing(s: State, j: nat, expired: bool)
    requires j < |s.jobs| && s.mu.None? && (s.jobs[j].at.Cleanup? || s.jobs[j].at.Finishing? || s.jobs[j].at.Leaving?)
    ensures JobUnderMu(s, j, expired).auto == s.auto && JobUnderMu(s, j, expired).disk == s.disk
  {
  }

  /**
   In every run, a job puts a certificate on disk or into use only while its own configuration is the
   current one and not cancelled: nothing superseded is ever installed.
   */
  lemma InstallsAreCurrent(actions: seq<Action>, j: nat, expired: bool)
    ensures var s := Execute(START, actions);
      var t := Do(s, JobStep(j, expired));
      (t.disk != s.disk || t.auto != s.auto) ==>
        j < |s.jobs| && s.cfg == Some(s.jobs[j].cfg) && s.epoch == s.jobs[j].epoch
  {
    EveryRun(START, actions);
    var s := Execute(START, actions);
    if j < |s.jobs| {
      if !Committing(s.jobs[j]) {
        OnlyWritingWrites(s, j);
        OnlyWrittenInstalls(s, j, expired);
      }
      assert JobOk(s, j);
    }
  }

  /** In every run, every certificate in use or on disk was written under the configuration it was got for. */
  lemma OnlyCurrentCertificates(actions: seq<Action>, name: Name)
    ensures var s := Execute(START, actions);
      (name in s.auto ==> CertOk(s.auto[name])) && (name in s.disk ==> CertOk(s.disk[name]))
  {
    EveryRun(START, actions);
  }

  /** In every run a job makes at most three attempts. */
  lemma AtMostThreeAttempts(actions: seq<Action>, j: nat)
    ensures var s := Execute(START, actions);
      j < |s.jobs| ==> 1 <= s.jobs[j].attempt <= 3
  {
    EveryRun(START, actions);
    var s := Execute(START, actions);
    if j < |s.jobs| {
      assert JobOk(s, j);
    }
  }

  // ----- One operation at a time -----

  /** A critical section by itself: a takes mu, and what it did is published before mu is released. */
  function Section(s: State, a: Action): State { Do(Do(Do(s, a), Publish), Release) }

  /** The view shows what the maps are, and nobody holds mu. */
  predicate Shown(s: State) { s.mu.None? && s.view == s.Maps() }

  lemma SectionShows(s: State, a: Action)
    requires Do(s, a).mu.Some? && !Do(s, a).published && MayPublish(Do(s, a))
    ensures Section(s, a) == Do(s, a).(view := Do(s, a).Maps(), published := true, mu := None)
  {
  }

  /** A job is started for a name not in flight, under the current configuration, while there is room; else not. */
  lemma StartByItself(s: State, cfg: nat, name: Name)
    requires s.mu.None?
    ensures var r := Section(s, StartJob(cfg, name));
      Shown(r) && r.auto == s.auto && r.disk == s.disk && r.challenges == s.challenges &&
      if s.cfg == Some(cfg) && name !in s.inFlight && |s.inFlight| < 4 then
        r.jobs == s.jobs + [Job(name, cfg, s.epoch, 1, false, Started)] && r.inFlight == s.inFlight[name := |s.jobs|]
      else r.jobs == s.jobs && r.inFlight == s.inFlight
  {
    SectionShows(s, StartJob(cfg, name));
  }

  /** It begins to issue if its configuration is still the current one, and leaves otherwise. */
  lemma BeginByItself(s: State, j: nat, expired: bool)
    requires s.mu.None? && j < |s.jobs| && s.jobs[j].at.Started?
    ensures Do(s, JobStep(j, expired)) == s.With(j, if s.Current(j) then Issuing else Leaving)
  {
  }

  /** An order's challenge is put up for the job's name while its configuration is current and in time. */
  lemma ChallengeByItself(s: State, j: nat, expired: bool)
    requires s.mu.None? && j < |s.jobs| && s.jobs[j].at.Issuing?
    ensures var k := s.jobs[j];
      var r := Section(s, Challenge(j, expired));
      Shown(r) && r.auto == s.auto && r.disk == s.disk && r.inFlight == s.inFlight &&
      if s.Current(j) && !expired then
        r.jobs == s.jobs[j := k.(pending := true)] && r.challenges == s.challenges[k.name := j]
      else r.jobs == s.jobs[j := k.(at := Cleanup(false))] && r.challenges == s.challenges
  {
    SectionShows(s, Challenge(j, expired));
  }

  /** A commit begins with applyMu and goes on only if the job's configuration is current and it is in time. */
  lemma CheckByItself(s: State, j: nat, expired: bool)
    requires s.mu.None? && s.applyMu.None? && j < |s.jobs| && s.jobs[j].at.Commit?
    ensures Do(Do(s, JobStep(j, expired)), JobStep(j, expired)) ==
      s.(jobs := s.jobs[j := s.jobs[j].(at := if s.Current(j) && !expired then Writing else Stored(false))],
         applyMu := Some(JobOf(j)))
  {
    var a := s.With(j, Checking).(applyMu := Some(JobOf(j)));
    assert Do(s, JobStep(j, expired)) == a;
    var next := if s.Current(j) && !expired then Writing else Stored(false);
    assert Do(a, JobStep(j, expired)) == a.With(j, next);
  }

  /** It writes the certificate, for its name and under the configuration of this moment, and puts it into use. */
  lemma InstallByItself(s: State, j: nat, expired: bool)
    requires s.mu.None? && j < |s.jobs| && s.jobs[j].at.Writing?
    ensures var k := s.jobs[j];
      var cert := Cert(j, k.cfg, k.epoch, (s.cfg, s.epoch));
      var r := Section(Do(s, JobStep(j, expired)), JobStep(j, expired));
      Shown(r) && r.applyMu == s.applyMu && r.challenges == s.challenges && r.inFlight == s.inFlight &&
      r.auto == s.auto[k.name := cert] && r.disk == s.disk[k.name := cert] &&
      r.jobs == s.jobs[j := k.(at := Stored(true))]
  {
    var k := s.jobs[j];
    var cert := Cert(j, k.cfg, k.epoch, (s.cfg, s.epoch));
    var b := s.With(j, Written).(disk := s.disk[k.name := cert]);
    assert Do(s, JobStep(j, expired)) == b;
    var c := b.With(j, Stored(true)).(auto := s.auto[k.name := cert], mu := Some(JobOf(j)), published := false);
    assert Do(b, JobStep(j, expired)) == c;
    SectionShows(b, JobStep(j, expired));
  }

  /** Whether it stored a certificate or not, it gives applyMu back. */
  lemma GivesBack(s: State, j: nat, expired: bool)
    requires j < |s.jobs| && s.jobs[j].at.Stored? && s.mu != Some(JobOf(j))
    ensures Do(s, JobStep(j, expired)) ==
      s.(jobs := s.jobs[j := s.jobs[j].(at := Cleanup(s.jobs[j].at.ok))], applyMu := None)
  {
  }

  /** The job takes its challenge down, if it has one up. */
  lemma CleanupByItself(s: State, j: nat, expired: bool)
    requires s.mu.None? && j < |s.jobs| && s.jobs[j].at.Cleanup? && s.view == s.Maps()
    ensures var k := s.jobs[j];
      var r := if k.pending then Do(Section(s, JobStep(j, expired)), JobStep(j, expired)) else Do(s, JobStep(j, expired));
      Shown(r) && r.auto == s.auto && r.disk == s.disk && r.inFlight == s.inFlight &&
      r.challenges == (if k.pending then s.challenges - {k.name} else s.challenges) &&
      r.jobs == s.jobs[j := k.(pending := false, at := Attempted(k.at.ok))]
  {
    var k := s.jobs[j];
    if k.pending {
      SectionShows(s, JobStep(j, expired));
      var a := Section(s, JobStep(j, expired));
      assert a.jobs == s.jobs[j := k.(pending := false)];
      assert Do(a, JobStep(j, expired)) == a.With(j, Attempted(k.at.ok));
    }
  }

  /**
   After an attempt the job leaves at once if its configuration was cancelled; it is finished after a success
   or the third attempt, and tries again otherwise.
   */
  lemma AttemptByItself(s: State, j: nat, expired: bool)
    requires j < |s.jobs| && s.jobs[j].at.Attempted? && s.mu != Some(JobOf(j))
    ensures var k := s.jobs[j];
      Do(s, JobStep(j, expired)) == s.(jobs := s.jobs[j :=
        if s.epoch != k.epoch then k.(at := Leaving)
        else if k.at.ok || k.attempt >= 3 then k.(at := Finishing)
        else k.(at := Issuing, attempt := k.attempt + 1)])
  {
  }

  /** A finished job leaves, and its name may be started again. */
  lemma LeaveByItself(s: State, j: nat, expired: bool)
    requires s.mu.None? && j < |s.jobs| && s.jobs[j].at.Finishing?
    ensures var k := s.jobs[j];
      var r := Section(Section(s, JobStep(j, expired)), JobStep(j, expired));
      Shown(r) && r.auto == s.auto && r.disk == s.disk && r.challenges == s.challenges &&
      r.inFlight == s.inFlight - {k.name} && r.jobs == s.jobs[j := k.(at := Gone)]
  {
    var k := s.jobs[j];
    SectionShows(s, JobStep(j, expired));
    var a := Section(s, JobStep(j, expired));
    assert a.jobs == s.jobs[j := k.(at := Leaving)];
    SectionShows(a, JobStep(j, expired));
    assert a.jobs[j := a.jobs[j].(at := Gone)] == s.jobs[j := k.(at := Gone)];
  }

  /** An order is finalized, a failure ends the attempt, and giving up ends the job. */
  lemma OrderByItself(s: State, j: nat)
    requires j < |s.jobs| && s.mu != Some(JobOf(j))
    ensures s.jobs[j].at.Issuing? ==>
      Do(s, Finalize(j)) == s.With(j, Commit) && Do(s, JobFail(j)) == s.With(j, Cleanup(false))
    ensures s.jobs[j].at.Writing? ==> Do(s, JobFail(j)) == s.With(j, Stored(false))
    ensures s.jobs[j].at == Attempted(false) ==> Do(s, GiveUp(j)) == s.With(j, Finishing)
  {
  }

  /** A refusal of the rule's script takes the name's certificate out of use, and ends the job. */
  lemma RefuseByItself(s: State, j: nat)
    requires s.mu.None? && j < |s.jobs| && s.jobs[j].at.Issuing? && !s.jobs[j].pending && s.Current(j)
    ensures var r := Section(s, Refuse(j));
      Shown(r) && r.auto == s.auto - {s.jobs[j].name} && r.disk == s.disk &&
      r.jobs == s.jobs[j := s.jobs[j].(at := Leaving)]
  {
    SectionShows(s, Refuse(j));
  }

  /**
   Apply by itself: a configuration that is accepted is current afterwards, and the contexts of the jobs before
   are cancelled; one that is not changes nothing.
   */
  lemma ApplyByItself(s: State, i: nat)
    requires s.mu.None? && s.applyMu.None? && i < |s.applies| && s.applies[i].at.Called?
    ensures var a := s.applies[i];
      var b := Do(Do(s, ApplyStep(i)), ApplyStep(i));
      if a.accepted then
        var c := Do(Do(Do(b, ApplyStep(i)), Publish), Release);
        var r := Do(c, ApplyStep(i));
        Shown(r) && r.cfg == Some(a.cfg) && r.epoch == s.epoch + 1 && r.applyMu.None? && r.jobs == s.jobs &&
        r.auto == s.auto && r.disk == s.disk && r.applies == s.applies[i := a.(at := Over)]
      else b == s.(applies := s.applies[i := a.(at := Over)])
  {
    var a := s.applies[i];
    var x := s.(applies := s.applies[i := a.(at := Locked)], applyMu := Some(Applier(i)));
    assert Do(s, ApplyStep(i)) == x;
    if a.accepted {
      AcceptByItself(s, x, i);
    } else {
      assert Do(x, ApplyStep(i)) == x.WithApply(i, Over).(applyMu := None);
      assert x.applies[i := a.(at := Over)] == s.applies[i := a.(at := Over)];
    }
  }

  lemma AcceptByItself(s: State, x: State, i: nat)
    requires s.mu.None? && i < |s.applies| && s.applies[i].accepted
    requires x == s.(applies := s.applies[i := s.applies[i].(at := Locked)], applyMu := Some(Applier(i)))
    ensures var a := s.applies[i];
      var c := Do(Do(Do(Do(x, ApplyStep(i)), ApplyStep(i)), Publish), Release);
      var r := Do(c, ApplyStep(i));
      Shown(r) && r.cfg == Some(a.cfg) && r.epoch == s.epoch + 1 && r.applyMu.None? && r.jobs == s.jobs &&
      r.auto == s.auto && r.disk == s.disk && r.applies == s.applies[i := a.(at := Over)]
  {
    var a := s.applies[i];
    var y := x.(applies := s.applies[i := a.(at := Cancelled)], epoch := s.epoch + 1, mu := Some(Applier(i)), published := false);
    assert Do(x, ApplyStep(i)) == y;
    var z := y.(applies := s.applies[i := a.(at := Loading)], cfg := Some(a.cfg));
    assert Do(y, ApplyStep(i)) == z;
    var w := z.(view := z.Maps(), published := true, mu := None);
    assert Do(Do(z, Publish), Release) == w;
    assert Do(w, ApplyStep(i)) == w.(applies := s.applies[i := a.(at := Over)], applyMu := None);
  }

  /** The console puts a certificate on disk into use. */
  lemma AdoptByItself(s: State, name: Name)
    requires s.mu.None?
    ensures var r := Section(s, Adopt(name));
      Shown(r) && r.disk == s.disk && r.auto == if name in s.disk then s.auto[name := s.disk[name]] else s.auto
  {
    SectionShows(s, Adopt(name));
  }

  /** Apply does too, for the names of its configuration, and is not over while it holds mu. */
  lemma LoadByItself(s: State, i: nat, name: Name)
    requires s.mu.None? && i < |s.applies| && s.applies[i].at.Loading? && name in s.disk
    ensures var r := Section(s, Load(i, name));
      Shown(r) && r.disk == s.disk && r.auto == s.auto[name := s.disk[name]] && r.applies == s.applies
    ensures Do(Do(s, Load(i, name)), ApplyStep(i)) == Do(s, Load(i, name))
  {
    SectionShows(s, Load(i, name));
  }

  /** Removing a name takes its certificate out of use and off the disk, unless a job is at work on it. */
  lemma RemoveByItself(s: State, name: Name)
    requires s.mu.None?
    ensures var r := Section(s, Remove(name));
      Shown(r) && r.inFlight == s.inFlight &&
      if name in s.inFlight then r.auto == s.auto && r.disk == s.disk
      else r.auto == s.auto - {name} && r.disk == s.disk - {name}
  {
    SectionShows(s, Remove(name));
  }
}
