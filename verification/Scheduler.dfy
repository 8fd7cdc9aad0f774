/** The metadata scheduler: jobs, the ready queue and its set, the workers, and the due jobs it loads. */
module Scheduler {
  import opened NodeIds
  import opened Net
  import opened Seqs
  import opened HashJobs
  import opened Sums

  type InfoHash = NodeId

  datatype Limits = Limits(maxConcurrent: nat, maxActive: nat, maxPeers: nat, round: nat)

  datatype JobAdmission = Accepted | Unchanged | NoPeers | AtCapacity

  datatype JobOutcome = JobOutcome(hash: InfoHash, attempts: nat, complete: bool, terminal: bool, parked: bool)

  // ------------------------------------------------------------ the scheduler without redundancy

  datatype Job = Job(peers: seq<SocketAddr>, attempts: nat)

  /** What a worker is started with: the job, the peers of its round and the attempts so far. */
  datatype Round = Round(hash: InfoHash, peers: seq<SocketAddr>, priorAttempts: nat)

  /** The jobs, which of them are with a worker, which were with a worker that panicked, the order of the others,
      and every round ever started. */
  datatype State = State(jobs: map<InfoHash, Job>, ready: seq<InfoHash>, running: set<InfoHash>, stuck: set<InfoHash>,
                         rounds: seq<Round>)

  const EMPTY := State(map[], [], {}, {}, [])

  /** The jobs marked as running. */
  predicate Busy(s: State, h: InfoHash)
  {
    h in s.running || h in s.stuck
  }

  ghost predicate StateOk(s: State, lim: Limits)
  {
    && NoDup(s.ready)
    && (forall h :: h in s.ready <==> h in s.jobs && !Busy(s, h))
    && (forall h | Busy(s, h) :: h in s.jobs)
    && s.running !! s.stuck
    && |s.running| <= lim.maxConcurrent && |s.jobs| <= lim.maxActive
    && (forall h | h in s.jobs :: JobOk(s.jobs[h], Busy(s, h), lim))
  }

  ghost predicate JobOk(job: Job, busy: bool, lim: Limits)
  {
    NoDup(job.peers) && |job.peers| <= lim.maxPeers && (busy || job.peers != [])
  }

  function Admit(s: State, lim: Limits, h: InfoHash, peers: seq<SocketAddr>, attempts: nat): (State, JobAdmission)
  {
    if h in s.jobs then
      var merged := Merged(s.jobs[h].peers, peers, lim.maxPeers);
      (s.(jobs := s.jobs[h := Job(merged, Max(s.jobs[h].attempts, attempts))]),
       if |merged| > |s.jobs[h].peers| then Accepted else Unchanged)
    else if peers == [] then (s, NoPeers)
    else if |s.jobs| >= lim.maxActive then (s, AtCapacity)
    else
      var merged := Merged([], peers, lim.maxPeers);
      if merged == [] then (s, NoPeers)
      else (s.(jobs := s.jobs[h := Job(merged, attempts)], ready := s.ready + [h]), Accepted)
  }

  function Without(s: seq<InfoHash>, h: InfoHash): seq<InfoHash>
  {
    if |s| == 0 then []
    else if s[|s| - 1] == h then Without(s[..|s| - 1], h)
    else Without(s[..|s| - 1], h) + [s[|s| - 1]]
  }

  function Prioritize(s: State, h: InfoHash, admission: JobAdmission): State
  {
    if admission == Accepted && h in s.ready then s.(ready := [h] + Without(s.ready, h)) else s
  }

  /** The first ready job goes to a worker with its first peers. */
  function DispatchOne(s: State, lim: Limits): State
    requires s.ready != [] && s.ready[0] in s.jobs
  {
    var h := s.ready[0];
    var job := s.jobs[h];
    State(s.jobs[h := job.(peers := Drop(job.peers, lim.round))], s.ready[1..], s.running + {h}, s.stuck,
          s.rounds + [Round(h, Take(job.peers, lim.round), job.attempts)])
  }

  ghost function Dispatch(s: State, lim: Limits): State
    requires StateOk(s, lim) && lim.round >= 1
    decreases |s.ready|
  {
    if |s.running| < lim.maxConcurrent && s.ready != [] then
      DispatchKeeps(s, lim);
      Dispatch(DispatchOne(s, lim), lim)
    else s
  }

  function Saturated(n: nat): nat
  {
    if n > U32_MAX then U32_MAX else n
  }

  predicate Final(o: JobOutcome)
  {
    o.complete || o.terminal || o.parked
  }

  /** A worker's outcome: the job is done, out of peers, or ready again. */
  function Finish(s: State, o: JobOutcome): State
    requires o.hash in s.jobs
  {
    var job := s.jobs[o.hash];
    var running := s.running - {o.hash};
    if Final(o) || job.peers == [] then State(s.jobs - {o.hash}, s.ready, running, s.stuck, s.rounds)
    else State(s.jobs[o.hash := job.(attempts := Saturated(job.attempts + o.attempts))], s.ready + [o.hash], running,
               s.stuck, s.rounds)
  }

  /** A worker that panicked: join_next reports an error, and nothing touches the job. */
  function Panicked(s: State, h: InfoHash): State
  {
    s.(running := s.running - {h}, stuck := s.stuck + {h})
  }

  // ------------------------------------------------------------ every step keeps the invariant

  lemma AdmitKeeps(s: State, lim: Limits, h: InfoHash, peers: seq<SocketAddr>, attempts: nat)
    requires StateOk(s, lim)
    ensures StateOk(Admit(s, lim, h, peers, attempts).0, lim)
  {
    hide Merged, NoDup, JobOk;
    if h in s.jobs {
      var job := Job(Merged(s.jobs[h].peers, peers, lim.maxPeers), Max(s.jobs[h].attempts, attempts));
      MergedJobOk(s.jobs[h], Busy(s, h), lim, peers, job.attempts);
      hide StateOk, Max;
      PutKnown(s, lim, h, job);
    } else {
      var job := Job(Merged([], peers, lim.maxPeers), attempts);
      if job.peers != [] && |s.jobs| < lim.maxActive {
        NewJobOk(lim, peers, attempts);
        hide StateOk;
        PutNew(s, lim, h, job);
      }
    }
  }

  lemma PutKnown(s: State, lim: Limits, h: InfoHash, job: Job)
    requires StateOk(s, lim) && h in s.jobs && JobOk(job, Busy(s, h), lim)
    ensures StateOk(s.(jobs := s.jobs[h := job]), lim)
  {
    hide NoDup, JobOk;
    KeysPlus(s.jobs, h, job);
  }

  lemma PutNew(s: State, lim: Limits, h: InfoHash, job: Job)
    requires StateOk(s, lim) && h !in s.jobs && |s.jobs| < lim.maxActive && JobOk(job, false, lim)
    ensures StateOk(s.(jobs := s.jobs[h := job], ready := s.ready + [h]), lim)
  {
    hide NoDup, JobOk;
    KeysPlus(s.jobs, h, job);
    AppendNoDup(s.ready, h);
  }

  lemma MergedJobOk(job: Job, running: bool, lim: Limits, more: seq<SocketAddr>, attempts: nat)
    requires JobOk(job, running, lim)
    ensures JobOk(Job(Merged(job.peers, more, lim.maxPeers), attempts), running, lim)
  {
    hide Merged, NoDup;
    MergedOk(job.peers, more, lim.maxPeers);
  }

  lemma NewJobOk(lim: Limits, more: seq<SocketAddr>, attempts: nat)
    requires Merged([], more, lim.maxPeers) != []
    ensures JobOk(Job(Merged([], more, lim.maxPeers), attempts), false, lim)
  {
    hide Merged;
    MergedOk([], more, lim.maxPeers);
  }

  lemma AppendNoDup<T>(s: seq<T>, x: T)
    requires NoDup(s) && x !in s
    ensures NoDup(s + [x])
  {
  }

  lemma {:induction false} WithoutExact(s: seq<InfoHash>, h: InfoHash)
    requires NoDup(s)
    ensures NoDup(Without(s, h)) && forall x :: x in Without(s, h) <==> x in s && x != h
  {
    if |s| > 0 {
      var init := s[..|s| - 1];
      WithoutExact(init, h);
      assert s == init + [s[|s| - 1]];
      assert s[|s| - 1] !in init;
    }
  }

  lemma PrioritizeKeeps(s: State, lim: Limits, h: InfoHash, admission: JobAdmission)
    requires StateOk(s, lim)
    ensures StateOk(Prioritize(s, h, admission), lim)
  {
    hide JobOk;
    WithoutExact(s.ready, h);
  }

  lemma ReadyTail(ready: seq<InfoHash>)
    requires NoDup(ready) && ready != []
    ensures NoDup(ready[1..]) && forall h :: h in ready[1..] <==> h in ready && h != ready[0]
  {
  }

  lemma DispatchKeeps(s: State, lim: Limits)
    requires StateOk(s, lim) && lim.round >= 1 && s.ready != [] && |s.running| < lim.maxConcurrent
    ensures s.ready[0] in s.jobs && !Busy(s, s.ready[0]) && s.jobs[s.ready[0]].peers != []
    ensures StateOk(DispatchOne(s, lim), lim)
  {
    hide NoDup;
    var h := s.ready[0];
    assert h in s.ready;
    assert JobOk(s.jobs[h], Busy(s, h), lim);
    ReadyTail(s.ready);
    TakeDropNoDup(s.jobs[h].peers, lim.round);
    KeysPlus(s.jobs, h, DispatchOne(s, lim).jobs[h]);
  }

  /** No round is empty, over the limit or has a peer twice, and no peer is lost between round and queue. */
  lemma RoundExact(s: State, lim: Limits)
    requires StateOk(s, lim) && lim.round >= 1 && s.ready != [] && |s.running| < lim.maxConcurrent
    ensures s.ready[0] in s.jobs
    ensures var t := DispatchOne(s, lim);
            var round := t.rounds[|s.rounds|];
            && round.hash == s.ready[0] && 1 <= |round.peers| <= lim.round && NoDup(round.peers)
            && round.peers + t.jobs[round.hash].peers == s.jobs[round.hash].peers
            && (|round.peers| == lim.round || t.jobs[round.hash].peers == [])
            && round.priorAttempts == t.jobs[round.hash].attempts == s.jobs[round.hash].attempts
            && |t.rounds| == |s.rounds| + 1 && s.rounds <= t.rounds
            && [round.hash] + t.ready == s.ready && t.running == s.running + {round.hash} && t.stuck == s.stuck
            && t.jobs.Keys == s.jobs.Keys && forall h | h in s.jobs && h != round.hash :: t.jobs[h] == s.jobs[h]
  {
    DispatchKeeps(s, lim);
    assert JobOk(s.jobs[s.ready[0]], Busy(s, s.ready[0]), lim);
    TakeDropNoDup(s.jobs[s.ready[0]].peers, lim.round);
  }

  lemma ReadyAgain(job: Job, lim: Limits, attempts: nat)
    requires JobOk(job, true, lim) && job.peers != []
    ensures JobOk(job.(attempts := attempts), false, lim)
  {
  }

  lemma FinishKeeps(s: State, lim: Limits, o: JobOutcome)
    requires StateOk(s, lim) && o.hash in s.running
    ensures StateOk(Finish(s, o), lim)
  {
    if Final(o) || s.jobs[o.hash].peers == [] {
      RemovalKeeps(s, lim, o);
    } else {
      RequeueKeeps(s, lim, o);
    }
  }

  lemma RemovalKeeps(s: State, lim: Limits, o: JobOutcome)
    requires StateOk(s, lim) && o.hash in s.running && (Final(o) || s.jobs[o.hash].peers == [])
    ensures StateOk(Finish(s, o), lim)
  {
    hide NoDup, JobOk, Final;
    KeysMinus(s.jobs, o.hash);
  }

  lemma RequeueKeeps(s: State, lim: Limits, o: JobOutcome)
    requires StateOk(s, lim) && o.hash in s.running && !(Final(o) || s.jobs[o.hash].peers == [])
    ensures StateOk(Finish(s, o), lim)
  {
    hide NoDup, JobOk, Final, Saturated;
    var h := o.hash;
    assert JobOk(s.jobs[h], true, lim);
    ReadyAgain(s.jobs[h], lim, Saturated(s.jobs[h].attempts + o.attempts));
    KeysPlus(s.jobs, h, Finish(s, o).jobs[h]);
    AppendNoDup(s.ready, h);
  }

  lemma PanickedKeeps(s: State, lim: Limits, h: InfoHash)
    requires StateOk(s, lim) && h in s.running
    ensures StateOk(Panicked(s, h), lim)
  {
    hide NoDup, JobOk;
    var t := Panicked(s, h);
    assert forall x :: Busy(t, x) <==> Busy(s, x);
  }

  // ------------------------------------------------------------ what the steps do

  /** A job stays after a worker's outcome exactly when it is not done and has peers left. Then it is the last ready
      one, with the worker's attempts on top of its own; otherwise it is gone. */
  lemma FinishExact(s: State, lim: Limits, o: JobOutcome)
    requires StateOk(s, lim) && o.hash in s.running
    ensures o.hash in s.jobs
    ensures var t := Finish(s, o);
            && (o.hash in t.jobs <==> !o.complete && !o.terminal && !o.parked && |s.jobs[o.hash].peers| > 0)
            && (o.hash in t.jobs ==>
                  && t.jobs[o.hash].peers == s.jobs[o.hash].peers
                  && t.jobs[o.hash].attempts == Min(s.jobs[o.hash].attempts + o.attempts, 4294967295)
                  && t.ready == s.ready + [o.hash])
            && (o.hash !in t.jobs ==> o.hash !in t.ready && t.ready == s.ready)
            && t.running == s.running - {o.hash} && t.stuck == s.stuck && o.hash !in t.stuck && t.rounds == s.rounds
            && (forall h | h != o.hash :: h in t.jobs <==> h in s.jobs)
            && (forall h | h != o.hash && h in s.jobs :: t.jobs[h] == s.jobs[h])
  {
    hide JobOk, NoDup;
  }

  /** An admission touches the job of its hash only: the job ends up with the merged peers and the larger number of
      attempts, and is accepted exactly when it gained a peer; a new one becomes the last ready job. */
  lemma AdmitExact(s: State, lim: Limits, h: InfoHash, peers: seq<SocketAddr>, attempts: nat)
    ensures var (t, admission) := Admit(s, lim, h, peers, attempts);
            var was := if h in s.jobs then s.jobs[h] else Job([], 0);
            && (forall x | x != h :: x in t.jobs <==> x in s.jobs)
            && (forall x | x != h && x in s.jobs :: t.jobs[x] == s.jobs[x])
            && (h in t.jobs <==> h in s.jobs || (|s.jobs| < lim.maxActive && Merged([], peers, lim.maxPeers) != [] && peers != []))
            && (h in t.jobs ==> t.jobs[h] == Job(Merged(was.peers, peers, lim.maxPeers),
                                                 if was.attempts < attempts then attempts else was.attempts))
            && (admission == Accepted <==> h in t.jobs && |t.jobs[h].peers| > |was.peers|)
            && (admission == Unchanged <==> h in s.jobs && |t.jobs[h].peers| <= |was.peers|)
            && (admission == AtCapacity <==> h !in s.jobs && peers != [] && |s.jobs| >= lim.maxActive)
            && t.ready == (if h in t.jobs && h !in s.jobs then s.ready + [h] else s.ready)
            && t.running == s.running && t.stuck == s.stuck && t.rounds == s.rounds
  {
    hide NewPeers;
  }

  /** After an accepted discovery a ready job is the first one, and the others keep their order. */
  lemma PrioritizeExact(s: State, lim: Limits, h: InfoHash)
    requires StateOk(s, lim) && h in s.ready
    ensures exists i: nat :: i < |s.ready| && s.ready[i] == h
                        && Prioritize(s, h, Accepted) == s.(ready := [h] + (s.ready[..i] + s.ready[i + 1..]))
  {
    hide StateOk, Without;
    ReadyOnce(s, lim);
    var i: nat :| i < |s.ready| && s.ready[i] == h;
    WithoutAt(s.ready, i);
  }

  lemma WithoutAt(s: seq<InfoHash>, i: nat)
    requires NoDup(s) && i < |s|
    ensures Without(s, s[i]) == s[..i] + s[i + 1..]
  {
    hide Without;
    var h, front, back := s[i], s[..i], s[i + 1..];
    assert s == front + [h] + back;
    OnlyAt(s, i);
    hide NoDup;
    WithoutNone(front, h);
    WithoutNone(back, h);
    WithoutConcat(front + [h], back, h);
    WithoutLast(front, h);
  }

  lemma OnlyAt(s: seq<InfoHash>, i: nat)
    requires NoDup(s) && i < |s|
    ensures s[i] !in s[..i] && s[i] !in s[i + 1..]
  {
  }

  lemma WithoutLast(s: seq<InfoHash>, h: InfoHash)
    ensures Without(s + [h], h) == Without(s, h)
  {
    assert (s + [h])[..|s|] == s;
  }

  lemma ReadyOnce(s: State, lim: Limits)
    requires StateOk(s, lim)
    ensures NoDup(s.ready)
  {
  }

  lemma {:induction false} WithoutNone(s: seq<InfoHash>, h: InfoHash)
    requires h !in s
    ensures Without(s, h) == s
  {
    if |s| > 0 {
      WithoutNone(s[..|s| - 1], h);
      assert s == s[..|s| - 1] + [s[|s| - 1]];
    }
  }

  lemma {:induction false} WithoutConcat(a: seq<InfoHash>, b: seq<InfoHash>, h: InfoHash)
    ensures Without(a + b, h) == Without(a, h) + Without(b, h)
  {
    if b == [] {
      assert a + b == a;
    } else {
      var init, last := b[..|b| - 1], b[|b| - 1];
      WithoutConcat(a, init, h);
      assert (a + b)[..|a + b| - 1] == a + init;
      assert Without(a, h) + (Without(init, h) + [last]) == Without(a, h) + Without(init, h) + [last];
    }
  }

  // ------------------------------------------------------------ the scheduler drains

  ghost function Pending(s: State): int
  {
    Sum(s.jobs, (job: Job) => |job.peers|)
  }

  /** Twice the peers still queued plus the rounds under way. */
  ghost function Work(s: State): int
  {
    2 * Pending(s) + |s.running|
  }

  lemma WorkNatural(s: State)
    ensures Work(s) >= 0
  {
    SumBounds(s.jobs, (job: Job) => |job.peers|);
  }

  lemma DispatchFalls(s: State, lim: Limits)
    requires StateOk(s, lim) && lim.round >= 1 && s.ready != [] && |s.running| < lim.maxConcurrent
    ensures s.ready[0] in s.jobs && Work(DispatchOne(s, lim)) < Work(s)
  {
    DispatchKeeps(s, lim);
    var h := s.ready[0];
    SumPut(s.jobs, (job: Job) => |job.peers|, h, DispatchOne(s, lim).jobs[h]);
  }

  lemma FinishFalls(s: State, lim: Limits, o: JobOutcome)
    requires StateOk(s, lim) && o.hash in s.running
    ensures Work(Finish(s, o)) < Work(s)
  {
    var h := o.hash;
    var f := (job: Job) => |job.peers|;
    if Final(o) || s.jobs[h].peers == [] {
      SumTake(s.jobs, f, h);
    } else {
      SumPut(s.jobs, f, h, Finish(s, o).jobs[h]);
    }
  }

  lemma PanickedFalls(s: State, h: InfoHash)
    requires h in s.running
    ensures Work(Panicked(s, h)) < Work(s)
  {
  }

  /** Nothing ready and nothing running means nothing left but what panics left behind. */
  lemma Drained(s: State, lim: Limits)
    requires StateOk(s, lim) && s.ready == [] && s.running == {}
    ensures s.jobs.Keys == s.stuck
  {
    hide JobOk;
    assert forall h :: h in s.jobs && !Busy(s, h) ==> h in s.ready;
  }

  /** What can happen while nothing is admitted: a dispatch, or the end of any worker, one way or the other. */
  datatype Move = Start | Join(outcome: JobOutcome) | Panic(hash: InfoHash)

  predicate Enabled(s: State, lim: Limits, m: Move)
  {
    match m
    case Start => s.ready != [] && s.ready[0] in s.jobs && |s.running| < lim.maxConcurrent
    case Join(o) => o.hash in s.running && o.hash in s.jobs
    case Panic(h) => h in s.running
  }

  function Moved(s: State, lim: Limits, m: Move): State
    requires Enabled(s, lim, m)
  {
    match m
    case Start => DispatchOne(s, lim)
    case Join(o) => Finish(s, o)
    case Panic(h) => Panicked(s, h)
  }

  /** The moves ms, each enabled in its turn, lead from s to t. */
  ghost predicate Leads(s: State, lim: Limits, ms: seq<Move>, t: State)
    decreases |ms|
  {
    if |ms| == 0 then s == t else Enabled(s, lim, ms[0]) && Leads(Moved(s, lim, ms[0]), lim, ms[1..], t)
  }

  /** Every run without admissions, whatever the outcomes and their order, is at most as long as the work
      it starts with. */
  lemma {:induction false} RunsEnd(s: State, lim: Limits, ms: seq<Move>, t: State)
    requires StateOk(s, lim) && lim.round >= 1 && Leads(s, lim, ms, t)
    ensures StateOk(t, lim) && |ms| <= Work(s) - Work(t) && 0 <= Work(t)
    decreases |ms|
  {
    hide StateOk, Work, DispatchOne, Finish, Panicked;
    if |ms| == 0 {
      WorkNatural(s);
    } else {
      if ms[0].Start? {
        DispatchKeeps(s, lim);
        DispatchFalls(s, lim);
      } else if ms[0].Join? {
        FinishKeeps(s, lim, ms[0].outcome);
        FinishFalls(s, lim, ms[0].outcome);
      } else {
        PanickedKeeps(s, lim, ms[0].hash);
        PanickedFalls(s, ms[0].hash);
      }
      RunsEnd(Moved(s, lim, ms[0]), lim, ms[1..], t);
    }
  }

  lemma SomethingEnabled(s: State, lim: Limits)
    requires StateOk(s, lim) && lim.maxConcurrent >= 1 && (s.running != {} || s.ready != [])
    ensures (exists m: Move :: Enabled(s, lim, m)) && s.jobs.Keys != s.stuck
  {
    hide JobOk;
    if s.running != {} {
      var h :| h in s.running;
      assert Enabled(s, lim, Panic(h)) && h in s.jobs.Keys && h !in s.stuck;
    } else {
      assert s.ready[0] in s.ready;
      assert Enabled(s, lim, Start) && s.ready[0] in s.jobs.Keys && s.ready[0] !in s.stuck;
    }
  }

  /** And it can go on until exactly the jobs of panicked workers are left. */
  lemma StuckIsDrained(s: State, lim: Limits)
    requires StateOk(s, lim) && lim.maxConcurrent >= 1
    ensures (forall m: Move :: !Enabled(s, lim, m)) <==> s.jobs.Keys == s.stuck
  {
    hide StateOk;
    if s.running == {} && s.ready == [] {
      Drained(s, lim);
    } else {
      SomethingEnabled(s, lim);
    }
  }

  // ------------------------------------------------------------ due jobs

  /** A row of the due order with its peers. */
  datatype DueJob = DueJob(hash: InfoHash, attempts: nat, peers: seq<SocketAddr>)

  ghost predicate DistinctHashes(due: seq<DueJob>)
  {
    forall i, j | 0 <= i < j < |due| :: due[i].hash != due[j].hash
  }

  function Untracked(due: seq<DueJob>, tracked: set<InfoHash>): seq<DueJob>
  {
    if |due| == 0 then []
    else
      var earlier, last := Untracked(due[..|due| - 1], tracked), due[|due| - 1];
      if last.hash in tracked then earlier else earlier + [last]
  }

  function Free(lim: Limits, n: nat): nat
  {
    if n < lim.maxActive then lim.maxActive - n else 0
  }

  lemma {:induction false} UntrackedPrefix(due: seq<DueJob>, m: nat, tracked: set<InfoHash>)
    requires m <= |due|
    ensures Untracked(due[..m], tracked) <= Untracked(due, tracked)
    decreases |due|
  {
    if m < |due| {
      var init := due[..|due| - 1];
      UntrackedPrefix(init, m, tracked);
      assert init[..m] == due[..m];
    } else {
      assert due[..m] == due;
    }
  }

  /** Pigeonhole: of distinct rows, at most as many are tracked as there are tracked jobs. */
  lemma {:induction false} UntrackedCount(due: seq<DueJob>, tracked: set<InfoHash>)
    requires DistinctHashes(due)
    ensures |Untracked(due, tracked)| + |tracked| >= |due|
  {
    if |due| > 0 {
      var init, last := due[..|due| - 1], due[|due| - 1];
      if last.hash in tracked {
        UntrackedCount(init, tracked - {last.hash});
        UntrackedSame(init, tracked, last.hash);
      } else {
        UntrackedCount(init, tracked);
      }
    }
  }

  lemma {:induction false} UntrackedSame(due: seq<DueJob>, tracked: set<InfoHash>, h: InfoHash)
    requires forall i | 0 <= i < |due| :: due[i].hash != h
    ensures Untracked(due, tracked - {h}) == Untracked(due, tracked)
  {
    if |due| > 0 {
      UntrackedSame(due[..|due| - 1], tracked, h);
    }
  }

  /** Asking for the first max_active rows only loses nothing: after dropping the tracked ones, the first
      free ones are those of the whole due order. */
  lemma DueWindowSuffices(due: seq<DueJob>, tracked: set<InfoHash>, lim: Limits)
    requires DistinctHashes(due)
    ensures Take(Untracked(Take(due, lim.maxActive), tracked), Free(lim, |tracked|))
            == Take(Untracked(due, tracked), Free(lim, |tracked|))
  {
    if lim.maxActive < |due| {
      UntrackedPrefix(due, lim.maxActive, tracked);
      UntrackedCount(due[..lim.maxActive], tracked);
    }
  }

  function AdmitDue(s: State, lim: Limits, records: seq<DueJob>): (State, seq<JobAdmission>)
  {
    if |records| == 0 then (s, [])
    else
      var (t, before) := AdmitDue(s, lim, records[..|records| - 1]);
      var last := records[|records| - 1];
      var (u, admission) := Admit(t, lim, last.hash, last.peers, last.attempts);
      (u, before + [admission])
  }

  /** Admitting no more records than there is room for never meets the limit. */
  lemma {:induction false} AdmitDueNeverFull(s: State, lim: Limits, records: seq<DueJob>)
    requires StateOk(s, lim) && |records| <= Free(lim, |s.jobs|)
    ensures var (t, admissions) := AdmitDue(s, lim, records);
            && StateOk(t, lim) && |t.jobs| <= |s.jobs| + |records|
            && AtCapacity !in admissions
  {
    hide StateOk, Merged;
    if |records| > 0 {
      var init, last := records[..|records| - 1], records[|records| - 1];
      AdmitDueNeverFull(s, lim, init);
      var t := AdmitDue(s, lim, init).0;
      AdmitKeeps(t, lim, last.hash, last.peers, last.attempts);
      AdmitSize(t, lim, last.hash, last.peers, last.attempts);
      assert |t.jobs| < lim.maxActive;
    }
  }

  lemma AdmitSize(s: State, lim: Limits, h: InfoHash, peers: seq<SocketAddr>, attempts: nat)
    ensures var (t, admission) := Admit(s, lim, h, peers, attempts);
            |t.jobs| <= |s.jobs| + 1 && (admission == AtCapacity ==> |s.jobs| >= lim.maxActive)
  {
    hide Merged;
    KeysPlus(s.jobs, h, Job(if h in s.jobs then Merged(s.jobs[h].peers, peers, lim.maxPeers) else Merged([], peers, lim.maxPeers),
                            if h in s.jobs then Max(s.jobs[h].attempts, attempts) else attempts));
  }

  // ------------------------------------------------------------ runs

  /** What the loop waits for: a discovery, the retry tick with the due order, or a worker. */
  datatype Input =
    | Discovery(hash: InfoHash, peers: seq<SocketAddr>)
    | Retry(due: seq<DueJob>)
    | Worker(outcome: JobOutcome)
    | WorkerPanic(hash: InfoHash)

  ghost predicate InputOk(input: Input)
  {
    input.Retry? ==> DistinctHashes(input.due)
  }

  function React(s: State, lim: Limits, input: Input): State
  {
    match input
    case Discovery(h, peers) =>
      var (t, admission) := Admit(s, lim, h, peers, 0);
      Prioritize(t, h, admission)
    case Retry(due) => AdmitDue(s, lim, Take(Untracked(due, s.jobs.Keys), Free(lim, |s.jobs|))).0
    case Worker(o) => if o.hash in s.running && o.hash in s.jobs then Finish(s, o) else s
    case WorkerPanic(h) => if h in s.running then Panicked(s, h) else s
  }

  lemma ReactKeeps(s: State, lim: Limits, input: Input)
    requires StateOk(s, lim)
    ensures StateOk(React(s, lim, input), lim)
  {
    hide StateOk, Finish, Panicked;
    match input
    case Discovery(h, peers) =>
      AdmitKeeps(s, lim, h, peers, 0);
      PrioritizeKeeps(Admit(s, lim, h, peers, 0).0, lim, h, Admit(s, lim, h, peers, 0).1);
    case Retry(due) =>
      AdmitDueNeverFull(s, lim, Take(Untracked(due, s.jobs.Keys), Free(lim, |s.jobs|)));
    case Worker(o) =>
      if o.hash in s.running && o.hash in s.jobs {
        FinishKeeps(s, lim, o);
      }
    case WorkerPanic(h) =>
      if h in s.running {
        PanickedKeeps(s, lim, h);
      }
  }

  lemma {:induction false} DispatchOk(s: State, lim: Limits)
    requires StateOk(s, lim) && lim.round >= 1
    ensures StateOk(Dispatch(s, lim), lim) && Work(Dispatch(s, lim)) <= Work(s)
    ensures |Dispatch(s, lim).running| == lim.maxConcurrent || Dispatch(s, lim).ready == []
    ensures Dispatch(s, lim).stuck == s.stuck
    decreases |s.ready|
  {
    if |s.running| < lim.maxConcurrent && s.ready != [] {
      DispatchKeeps(s, lim);
      DispatchFalls(s, lim);
      DispatchOk(DispatchOne(s, lim), lim);
    }
  }

  /** Turns of the loop: the workers are filled, then one input is handled. */
  ghost function Run(s: State, lim: Limits, inputs: seq<Input>): State
    requires StateOk(s, lim) && lim.round >= 1
    ensures StateOk(Run(s, lim, inputs), lim)
  {
    if |inputs| == 0 then s
    else
      var t := Run(s, lim, inputs[..|inputs| - 1]);
      DispatchOk(t, lim);
      ReactKeeps(Dispatch(t, lim), lim, inputs[|inputs| - 1]);
      React(Dispatch(t, lim), lim, inputs[|inputs| - 1])
  }

  /** Every state of every run from the empty scheduler is sound. */
  lemma EmptyOk(lim: Limits)
    ensures StateOk(EMPTY, lim)
  {
  }

  // ------------------------------------------------------------ jobs that are done

  /** The input may admit h. */
  predicate Admits(input: Input, h: InfoHash)
  {
    || (input.Discovery? && input.hash == h)
    || (input.Retry? && exists i :: 0 <= i < |input.due| && input.due[i].hash == h)
  }

  /** t has every round of s in order, and no further one for h. */
  predicate NoNewRound(s: State, t: State, h: InfoHash)
  {
    s.rounds <= t.rounds && forall k | |s.rounds| <= k < |t.rounds| :: t.rounds[k].hash != h
  }

  lemma {:induction false} DispatchOthers(s: State, lim: Limits, h: InfoHash)
    requires StateOk(s, lim) && lim.round >= 1 && h !in s.jobs
    ensures h !in Dispatch(s, lim).jobs && NoNewRound(s, Dispatch(s, lim), h)
    decreases |s.ready|
  {
    if |s.running| < lim.maxConcurrent && s.ready != [] {
      DispatchKeeps(s, lim);
      RoundExact(s, lim);
      hide StateOk;
      DispatchOthers(DispatchOne(s, lim), lim, h);
    }
  }

  lemma {:induction false} AdmitDueOthers(s: State, lim: Limits, records: seq<DueJob>, h: InfoHash)
    requires h !in s.jobs && forall i | 0 <= i < |records| :: records[i].hash != h
    ensures var t := AdmitDue(s, lim, records).0; h !in t.jobs && t.rounds == s.rounds
  {
    hide Admit;
    if |records| > 0 {
      var init, last := records[..|records| - 1], records[|records| - 1];
      AdmitDueOthers(s, lim, init, h);
      AdmitExact(AdmitDue(s, lim, init).0, lim, last.hash, last.peers, last.attempts);
    }
  }

  lemma {:induction false} UntrackedAmong(due: seq<DueJob>, tracked: set<InfoHash>)
    ensures forall r | r in Untracked(due, tracked) :: r in due && r.hash !in tracked
  {
    if |due| > 0 {
      UntrackedAmong(due[..|due| - 1], tracked);
    }
  }

  lemma ReactOthers(s: State, lim: Limits, input: Input, h: InfoHash)
    requires StateOk(s, lim) && h !in s.jobs && !Admits(input, h)
    ensures h !in React(s, lim, input).jobs && NoNewRound(s, React(s, lim, input), h)
  {
    hide StateOk, Admit;
    match input
    case Discovery(x, peers) =>
      AdmitExact(s, lim, x, peers, 0);
    case Retry(due) =>
      var records := Take(Untracked(due, s.jobs.Keys), Free(lim, |s.jobs|));
      UntrackedAmong(due, s.jobs.Keys);
      assert forall i | 0 <= i < |records| :: records[i] in Untracked(due, s.jobs.Keys);
      AdmitDueOthers(s, lim, records, h);
    case Worker(_) =>
    case WorkerPanic(_) =>
  }

  /** Once the worker of h reported that it is complete, terminal or parked, h gets no further round until it is
      admitted again. */
  lemma {:induction false} DoneIsDone(s: State, lim: Limits, inputs: seq<Input>, k: nat, o: JobOutcome)
    requires StateOk(s, lim) && lim.round >= 1 && k < |inputs|
    requires inputs[k] == Worker(o) && o.hash in Dispatch(Run(s, lim, inputs[..k]), lim).running
    requires o.complete || o.terminal || o.parked
    requires forall j | k < j < |inputs| :: !Admits(inputs[j], o.hash)
    ensures o.hash !in Run(s, lim, inputs).jobs
    ensures NoNewRound(Run(s, lim, inputs[..k + 1]), Run(s, lim, inputs), o.hash)
    decreases |inputs|
  {
    hide StateOk, React, Dispatch;
    var init, input := inputs[..|inputs| - 1], inputs[|inputs| - 1];
    var t := Run(s, lim, init);
    DispatchOk(t, lim);
    if k == |init| {
      assert inputs[..k] == init && inputs[..k + 1] == inputs;
      FinishedGone(Dispatch(t, lim), lim, o);
    } else {
      assert init[..k] == inputs[..k] && init[..k + 1] == inputs[..k + 1];
      DoneIsDone(s, lim, init, k, o);
      DispatchOthers(t, lim, o.hash);
      ReactOthers(Dispatch(t, lim), lim, input, o.hash);
    }
  }

  lemma FinishedGone(s: State, lim: Limits, o: JobOutcome)
    requires StateOk(s, lim) && o.hash in s.running && (o.complete || o.terminal || o.parked)
    ensures o.hash !in React(s, lim, Worker(o)).jobs
  {
    FinishExact(s, lim, o);
  }

  // ------------------------------------------------------------ the retry tick

  lemma {:induction false} AdmitDueTakes(s: State, lim: Limits, records: seq<DueJob>, i: nat)
    requires StateOk(s, lim) && |records| <= Free(lim, |s.jobs|) && lim.maxPeers >= 1
    requires i < |records| && records[i].peers != []
    ensures records[i].hash in AdmitDue(s, lim, records).0.jobs
  {
    hide StateOk, Admit, Merged;
    var init, last := records[..|records| - 1], records[|records| - 1];
    var t := AdmitDue(s, lim, init).0;
    AdmitExact(t, lim, last.hash, last.peers, last.attempts);
    if i < |init| {
      AdmitDueTakes(s, lim, init, i);
    } else {
      AdmitDueNeverFull(s, lim, init);
      SomeMerged(last.peers, lim.maxPeers);
    }
  }

  lemma SomeMerged(peers: seq<SocketAddr>, limit: nat)
    requires peers != [] && limit >= 1
    ensures Merged([], peers, limit) != []
  {
    NewPeersExact(peers, {});
    assert peers[0] in SetOf(peers);
  }

  /** Every due row that is not tracked is a job after the tick, as far as there is room, in due order. */
  lemma RetryTakes(s: State, lim: Limits, due: seq<DueJob>, i: nat)
    requires StateOk(s, lim) && lim.maxPeers >= 1
    requires i < |due| && due[i].hash !in s.jobs && due[i].peers != []
    requires |Untracked(due[..i], s.jobs.Keys)| + |s.jobs| < lim.maxActive
    ensures due[i].hash in React(s, lim, Retry(due)).jobs
  {
    hide StateOk, AdmitDue;
    var tracked := s.jobs.Keys;
    var all := Untracked(due, tracked);
    assert due[..i + 1][..i] == due[..i];
    UntrackedPrefix(due, i + 1, tracked);
    var n := |Untracked(due[..i], tracked)|;
    assert all[n] == due[i];
    AdmitDueTakes(s, lim, Take(all, Free(lim, |s.jobs|)), n);
  }

  // ------------------------------------------------------------ panics

  /** Only a panic changes which jobs are stuck, and it adds its own. */
  lemma ReactStuck(s: State, lim: Limits, input: Input)
    requires StateOk(s, lim)
    ensures React(s, lim, input).stuck
            == if input.WorkerPanic? && input.hash in s.running then s.stuck + {input.hash} else s.stuck
  {
    hide StateOk, Merged;
    if input.Retry? {
      AdmitDueStuck(s, lim, Take(Untracked(input.due, s.jobs.Keys), Free(lim, |s.jobs|)));
    }
  }

  lemma {:induction false} AdmitDueStuck(s: State, lim: Limits, records: seq<DueJob>)
    ensures AdmitDue(s, lim, records).0.stuck == s.stuck
  {
    hide Merged;
    if |records| > 0 {
      AdmitDueStuck(s, lim, records[..|records| - 1]);
    }
  }

  /** In turn k of the loop the worker of h panicked. */
  ghost predicate PanickedAt(s: State, lim: Limits, inputs: seq<Input>, h: InfoHash, k: nat)
    requires StateOk(s, lim) && lim.round >= 1
  {
    k < |inputs| && inputs[k] == WorkerPanic(h) && h in Dispatch(Run(s, lim, inputs[..k]), lim).running
  }

  /** A job is stuck exactly when its worker panicked once: nothing in any run, of admissions, dispatches and
      outcomes, takes it up again. */
  lemma {:induction false} StuckExactly(s: State, lim: Limits, inputs: seq<Input>, h: InfoHash)
    requires StateOk(s, lim) && lim.round >= 1
    ensures h in Run(s, lim, inputs).stuck <==> h in s.stuck || exists k: nat :: PanickedAt(s, lim, inputs, h, k)
  {
    hide StateOk, React;
    if |inputs| > 0 {
      var init, input := inputs[..|inputs| - 1], inputs[|inputs| - 1];
      StuckExactly(s, lim, init, h);
      var t := Run(s, lim, init);
      DispatchOk(t, lim);
      ReactStuck(Dispatch(t, lim), lim, input);
      PanickedSplit(s, lim, inputs, h);
      hide PanickedAt, Dispatch;
      assert PanickedAt(s, lim, inputs, h, |init|) <==> input == WorkerPanic(h) && h in Dispatch(t, lim).running;
    }
  }

  lemma PanickedSplit(s: State, lim: Limits, inputs: seq<Input>, h: InfoHash)
    requires StateOk(s, lim) && lim.round >= 1 && |inputs| > 0
    ensures var init, input := inputs[..|inputs| - 1], inputs[|inputs| - 1];
            && (forall k: nat | k < |init| :: PanickedAt(s, lim, inputs, h, k) <==> PanickedAt(s, lim, init, h, k))
            && (PanickedAt(s, lim, inputs, h, |init|)
                <==> input == WorkerPanic(h) && h in Dispatch(Run(s, lim, init), lim).running)
            && (forall k: nat | PanickedAt(s, lim, inputs, h, k) :: k <= |init|)
            && (forall k: nat | PanickedAt(s, lim, init, h, k) :: k < |init|)
  {
    hide Dispatch, Run, StateOk;
    var init := inputs[..|inputs| - 1];
    assert forall k: nat | k < |init| :: init[..k] == inputs[..k] && init[k] == inputs[k];
  }

  /** One idle job with one peer. */
  function OneJob(h: InfoHash, p: SocketAddr): State
  {
    State(map[h := Job([p], 0)], [h], {}, {}, [])
  }

  /** The same job with its worker. */
  function OneWorker(h: InfoHash, p: SocketAddr): State
  {
    State(map[h := Job([], 0)], [], {h}, {}, [Round(h, [p], 0)])
  }

  /** The shortest way there: a hash is discovered with a peer, and the worker of its first round panics. */
  lemma StuckReached(lim: Limits, h: InfoHash, p: SocketAddr)
    requires lim.maxConcurrent >= 1 && lim.maxActive >= 1 && lim.maxPeers >= 1 && lim.round >= 1
    ensures StateOk(EMPTY, lim)
    ensures var s := Run(EMPTY, lim, [Discovery(h, [p]), WorkerPanic(h)]);
            s.stuck == {h} && s.jobs.Keys == {h} && s.ready == [] && s.running == {}
  {
    EmptyOk(lim);
    var first, second := Discovery(h, [p]), WorkerPanic(h);
    assert [first, second][..1] == [first] && [first][..0] == [];
    FirstAdmitted(lim, h, p);
    OneJobOk(lim, h, p);
    FirstStarted(lim, h, p);
    hide StateOk, Dispatch, React;
    assert Run(EMPTY, lim, []) == EMPTY;
    assert Run(EMPTY, lim, [first]) == OneJob(h, p);
    OneWorkerPanics(lim, h, p);
  }

  lemma OneWorkerPanics(lim: Limits, h: InfoHash, p: SocketAddr)
    ensures var s := React(OneWorker(h, p), lim, WorkerPanic(h));
            s.stuck == {h} && s.jobs.Keys == {h} && s.ready == [] && s.running == {}
  {
  }

  lemma FirstAdmitted(lim: Limits, h: InfoHash, p: SocketAddr)
    requires StateOk(EMPTY, lim) && lim.maxActive >= 1 && lim.maxPeers >= 1 && lim.round >= 1
    ensures Dispatch(EMPTY, lim) == EMPTY && React(EMPTY, lim, Discovery(h, [p])) == OneJob(h, p)
  {
    OnePeer(lim, p);
    hide Merged, StateOk;
    assert EMPTY.jobs[h := Job([p], 0)] == OneJob(h, p).jobs && EMPTY.ready + [h] == [h];
    assert Admit(EMPTY, lim, h, [p], 0) == (OneJob(h, p), Accepted);
    assert [h][..0] == [] && Without([h], h) == [];
    assert Prioritize(OneJob(h, p), h, Accepted) == OneJob(h, p);
  }

  lemma OneJobOk(lim: Limits, h: InfoHash, p: SocketAddr)
    requires lim.maxActive >= 1 && lim.maxPeers >= 1
    ensures StateOk(OneJob(h, p), lim)
  {
  }

  lemma FirstStarted(lim: Limits, h: InfoHash, p: SocketAddr)
    requires StateOk(OneJob(h, p), lim) && lim.maxConcurrent >= 1 && lim.round >= 1
    ensures Dispatch(OneJob(h, p), lim) == OneWorker(h, p)
  {
    var s := OneJob(h, p);
    DispatchKeeps(s, lim);
    hide StateOk;
    assert DispatchOne(s, lim) == OneWorker(h, p) by {
      assert s.jobs[h := Job([], 0)] == OneWorker(h, p).jobs && s.ready[1..] == [];
    }
    assert Dispatch(OneWorker(h, p), lim) == OneWorker(h, p);
  }

  lemma OnePeer(lim: Limits, p: SocketAddr)
    requires lim.maxPeers >= 1
    ensures Merged([], [p], lim.maxPeers) == [p]
  {
    assert [p][..0] == [];
    assert NewPeers([p][..0], {}) == [] && NewPeers([p], {}) == [p];
    var nobody: seq<SocketAddr> := [];
    assert SetOf(nobody) == {};
  }
}
