/** The metadata fetcher's loop on its own redundant structures, proved equal to the scheduler without them. */
module Fetcher {
  import opened Net
  import opened Seqs
  import opened HashJobs
  import opened Scheduler

  ghost function Plain(job: HashJob): Job
  {
    Job(job.peers, job.attempts)
  }

  ghost function Abs(jobs: map<InfoHash, HashJob>): map<InfoHash, Job>
  {
    map h | h in jobs :: Plain(jobs[h])
  }

  function Running(jobs: map<InfoHash, HashJob>): set<InfoHash>
  {
    set h | h in jobs && jobs[h].running
  }

  /** The jobs that are with a worker. */
  function Working(jobs: map<InfoHash, HashJob>, stuck: set<InfoHash>): set<InfoHash>
  {
    Running(jobs) - stuck
  }

  /** The redundancy: ready_set is the set of ready, each peer_set the set of its queue, and the workers are
      the jobs marked as running, one each, but for those whose worker panicked. */
  ghost predicate Agree(jobs: map<InfoHash, HashJob>, ready: seq<InfoHash>, readySet: set<InfoHash>,
                        workers: multiset<InfoHash>, stuck: set<InfoHash>)
  {
    && readySet == SetOf(ready)
    && (forall h | h in jobs :: jobs[h].peerSet == SetOf(jobs[h].peers))
    && stuck <= Running(jobs) && workers == multiset(Working(jobs, stuck))
  }

  lemma Put(jobs: map<InfoHash, HashJob>, stuck: set<InfoHash>, h: InfoHash, job: HashJob)
    ensures Abs(jobs[h := job]) == Abs(jobs)[h := Plain(job)]
    ensures Running(jobs[h := job]) == if job.running then Running(jobs) + {h} else Running(jobs) - {h}
    ensures Working(jobs[h := job], stuck)
            == if job.running && h !in stuck then Working(jobs, stuck) + {h} else Working(jobs, stuck) - {h}
  {
  }

  lemma Remove(jobs: map<InfoHash, HashJob>, stuck: set<InfoHash>, h: InfoHash)
    ensures Abs(jobs - {h}) == Abs(jobs) - {h} && Running(jobs - {h}) == Running(jobs) - {h}
    ensures Working(jobs - {h}, stuck) == Working(jobs, stuck) - {h}
  {
  }

  lemma AbsSize(jobs: map<InfoHash, HashJob>)
    ensures Abs(jobs).Keys == jobs.Keys && |Abs(jobs)| == |jobs|
  {
    assert |Abs(jobs).Keys| == |Abs(jobs)| && |jobs.Keys| == |jobs|;
  }

  lemma AgreeAt(jobs: map<InfoHash, HashJob>, ready: seq<InfoHash>, readySet: set<InfoHash>,
                workers: multiset<InfoHash>, stuck: set<InfoHash>,
                h: InfoHash)
    requires Agree(jobs, ready, readySet, workers, stuck)
    ensures h in readySet <==> h in ready
    ensures h in workers <==> h in Working(jobs, stuck)
    ensures h in workers ==> workers[h] == 1
    ensures h in Working(jobs, stuck) <==> h in Running(jobs) && h !in stuck
    ensures h in stuck ==> h in Running(jobs)
    ensures h in Running(jobs) <==> h in jobs && jobs[h].running
    ensures h in jobs ==> jobs[h].peerSet == SetOf(jobs[h].peers)
    ensures (h in Abs(jobs) <==> h in jobs) && (h in jobs ==> Abs(jobs)[h] == Plain(jobs[h]))
  {
  }

  lemma AgreeSize(jobs: map<InfoHash, HashJob>, ready: seq<InfoHash>, readySet: set<InfoHash>,
                  workers: multiset<InfoHash>, stuck: set<InfoHash>)
    requires Agree(jobs, ready, readySet, workers, stuck)
    ensures |workers| == |Working(jobs, stuck)|
  {
  }

  lemma AgreeUpdate(jobs: map<InfoHash, HashJob>, ready: seq<InfoHash>, readySet: set<InfoHash>,
                    workers: multiset<InfoHash>, stuck: set<InfoHash>,
                    h: InfoHash, job: HashJob)
    requires Agree(jobs, ready, readySet, workers, stuck) && job.peerSet == SetOf(job.peers)
    requires if h in jobs then job.running == jobs[h].running else !job.running
    ensures Agree(jobs[h := job], ready, readySet, workers, stuck)
    ensures Working(jobs[h := job], stuck) == Working(jobs, stuck)
  {
    Put(jobs, stuck, h, job);
    assert Running(jobs[h := job]) == Running(jobs) && Working(jobs[h := job], stuck) == Working(jobs, stuck);
  }

  lemma AgreeAppend(jobs: map<InfoHash, HashJob>, ready: seq<InfoHash>, readySet: set<InfoHash>,
                    workers: multiset<InfoHash>, stuck: set<InfoHash>,
                    h: InfoHash)
    requires Agree(jobs, ready, readySet, workers, stuck)
    ensures Agree(jobs, ready + [h], readySet + {h}, workers, stuck)
  {
  }

  lemma AgreeStart(jobs: map<InfoHash, HashJob>, ready: seq<InfoHash>, readySet: set<InfoHash>,
                   workers: multiset<InfoHash>, stuck: set<InfoHash>,
                   job: HashJob)
    requires Agree(jobs, ready, readySet, workers, stuck) && ready != [] && SetOf(ready[1..]) == SetOf(ready) - {ready[0]}
    requires ready[0] in jobs && !jobs[ready[0]].running && job.running && job.peerSet == SetOf(job.peers)
    ensures Agree(jobs[ready[0] := job], ready[1..], readySet - {ready[0]}, workers + multiset{ready[0]}, stuck)
  {
    hide SetOf;
    Put(jobs, stuck, ready[0], job);
  }

  lemma AgreeStop(jobs: map<InfoHash, HashJob>, ready: seq<InfoHash>, readySet: set<InfoHash>,
                  workers: multiset<InfoHash>, stuck: set<InfoHash>, h: InfoHash, job: HashJob)
    requires Agree(jobs, ready, readySet, workers, stuck) && h in jobs && jobs[h].running && h !in stuck && h !in ready
    requires !job.running && job.peerSet == SetOf(job.peers)
    ensures Agree(jobs[h := job], ready + [h], readySet + {h}, workers - multiset{h}, stuck)
  {
    Put(jobs, stuck, h, job);
    assert multiset(Working(jobs, stuck) - {h}) == multiset(Working(jobs, stuck)) - multiset{h};
  }

  lemma AgreeDrop(jobs: map<InfoHash, HashJob>, ready: seq<InfoHash>, readySet: set<InfoHash>,
                  workers: multiset<InfoHash>, stuck: set<InfoHash>, h: InfoHash)
    requires Agree(jobs, ready, readySet, workers, stuck) && h in jobs && jobs[h].running && h !in stuck && h !in ready
    ensures Agree(jobs - {h}, ready, readySet - {h}, workers - multiset{h}, stuck)
  {
    Remove(jobs, stuck, h);
    assert multiset(Working(jobs, stuck) - {h}) == multiset(Working(jobs, stuck)) - multiset{h};
  }

  lemma AgreePanic(jobs: map<InfoHash, HashJob>, ready: seq<InfoHash>, readySet: set<InfoHash>,
                   workers: multiset<InfoHash>,
                   stuck: set<InfoHash>, h: InfoHash)
    requires Agree(jobs, ready, readySet, workers, stuck) && h in workers
    ensures h in Working(jobs, stuck) && Working(jobs, stuck + {h}) == Working(jobs, stuck) - {h}
    ensures Agree(jobs, ready, readySet, workers - multiset{h}, stuck + {h})
  {
    hide SetOf;
    assert Working(jobs, stuck + {h}) == Working(jobs, stuck) - {h};
    assert multiset(Working(jobs, stuck) - {h}) == multiset(Working(jobs, stuck)) - multiset{h};
  }

  /** The job of a worker that is not done, seen as the scheduler sees it. */
  lemma StoppedView(jobs: map<InfoHash, HashJob>, ready: seq<InfoHash>, stuck: set<InfoHash>, rounds: seq<Round>, o: JobOutcome)
    requires o.hash in jobs && !Final(o) && jobs[o.hash].peers != []
    ensures var stopped := jobs[o.hash].(running := false, attempts := Saturated(jobs[o.hash].attempts + o.attempts));
            var before := State(Abs(jobs), ready, Working(jobs, stuck), stuck, rounds);
            var after := jobs[o.hash := stopped];
            && o.hash in before.jobs
            && State(Abs(after), ready + [o.hash], Working(after, stuck), stuck, rounds) == Finish(before, o)
  {
    Put(jobs, stuck, o.hash, jobs[o.hash].(running := false, attempts := Saturated(jobs[o.hash].attempts + o.attempts)));
    hide Working, Running, Saturated;
    assert o.hash in Abs(jobs) && Abs(jobs)[o.hash] == Plain(jobs[o.hash]);
    hide Abs;
  }

  lemma DroppedView(jobs: map<InfoHash, HashJob>, ready: seq<InfoHash>, stuck: set<InfoHash>, rounds: seq<Round>, o: JobOutcome)
    requires o.hash in jobs && (Final(o) || jobs[o.hash].peers == [])
    ensures var before := State(Abs(jobs), ready, Working(jobs, stuck), stuck, rounds);
            var after := jobs - {o.hash};
            && o.hash in before.jobs
            && State(Abs(after), ready, Working(after, stuck), stuck, rounds) == Finish(before, o)
  {
    Remove(jobs, stuck, o.hash);
    hide Working, Running;
    assert o.hash in Abs(jobs) && Abs(jobs)[o.hash] == Plain(jobs[o.hash]);
    hide Abs;
  }

  class MetadataFetcher {
    const limits: Limits
    var jobs: map<InfoHash, HashJob>
    var ready: seq<InfoHash>
    var readySet: set<InfoHash>
    var workers: multiset<InfoHash>
    /** Model only: the jobs whose worker panicked. */
    ghost var stuck: set<InfoHash>
    /** Model only: what the workers were started with. */
    var rounds: seq<Round>

    ghost function View(): State
      reads this
    {
      State(Abs(jobs), ready, Working(jobs, stuck), stuck, rounds)
    }

    ghost predicate Valid()
      reads this
    {
      Agree(jobs, ready, readySet, workers, stuck) && StateOk(View(), limits) && limits.round >= 1
    }

    constructor (limits: Limits)
      requires limits.round >= 1
      ensures Valid() && View() == EMPTY && this.limits == limits
    {
      this.limits := limits;
      jobs, ready, readySet, workers, stuck, rounds := map[], [], {}, multiset{}, {}, [];
    }

    /** admit_job_peers */
    method AdmitJobPeers(h: InfoHash, peers: seq<SocketAddr>, attempts: nat) returns (admission: JobAdmission)
      requires Valid()
      modifies this
      ensures Valid() && (View(), admission) == Admit(old(View()), limits, h, peers, attempts)
    {
      hide StateOk, Merged, Agree, Running, Working, Abs;
      AgreeAt(jobs, ready, readySet, workers, stuck, h);
      AbsSize(jobs);
      AdmitKeeps(View(), limits, h, peers, attempts);
      if h in jobs {
        var job := jobs[h].(attempts := Max(jobs[h].attempts, attempts));
        var merged, added := MergePeers(job, peers, limits.maxPeers);
        ListedIffIdle(View(), limits, h);
        Put(jobs, stuck, h, merged);
        AgreeUpdate(jobs, ready, readySet, workers, stuck, h, merged);
        jobs := jobs[h := merged];
        if added > 0 && !merged.running && h !in readySet {
          assert false;
        }
        return if added > 0 then Accepted else Unchanged;
      }
      if peers == [] {
        return NoPeers;
      }
      if |jobs| >= limits.maxActive {
        return AtCapacity;
      }
      var job, added := MergePeers(HashJob([], {}, false, attempts), peers, limits.maxPeers);
      if added == 0 {
        return NoPeers;
      }
      Put(jobs, stuck, h, job);
      AgreeUpdate(jobs, ready, readySet, workers, stuck, h, job);
      jobs := jobs[h := job];
      AgreeAppend(jobs, ready, readySet, workers, stuck, h);
      readySet := readySet + {h};
      ready := ready + [h];
      return Accepted;
    }

    /** prioritize_ready_job */
    method PrioritizeReadyJob(h: InfoHash, admission: JobAdmission)
      requires Valid()
      modifies this
      ensures Valid() && View() == Prioritize(old(View()), h, admission)
    {
      PrioritizeKeeps(View(), limits, h, admission);
      hide StateOk;
      if admission == Accepted && h in readySet {
        ghost var before := ready;
        var kept := Retain(ready, h);
        ready := [h] + kept;
        WithoutMembers(before, h);
        assert SetOf(ready) == SetOf(before);
      }
    }

    /** The dispatch loop. Its three skips never happen: a ready hash has an idle job with peers. */
    method DispatchReady()
      requires Valid()
      modifies this
      ensures Valid() && old(Valid()) && View() == Dispatch(old(View()), limits)
    {
      hide StateOk, Agree, Running, Working, SetOf, Abs;
      AgreeSize(jobs, ready, readySet, workers, stuck);
      while |workers| < limits.maxConcurrent
        invariant Valid() && Dispatch(View(), limits) == Dispatch(old(View()), limits)
        invariant |workers| == |Working(jobs, stuck)|
        decreases |ready|
      {
        if ready == [] {
          break;
        }
        DispatchKeeps(View(), limits);
        StartFacts(View(), limits);
        ghost var before := View();
        ghost var queue, queued, busy := ready, readySet, workers;
        var h := ready[0];
        AgreeAt(jobs, ready, readySet, workers, stuck, h);
        ready := ready[1..];
        readySet := readySet - {h};
        if h !in jobs || jobs[h].running {
          assert false;
        }
        var rest, peers := TakeRound(jobs[h], limits.round);
        if peers == [] {
          assert false;
        }
        rest := rest.(running := true);
        Put(jobs, stuck, h, rest);
        AgreeStart(jobs, queue, queued, busy, stuck, rest);
        jobs := jobs[h := rest];
        workers := workers + multiset{h};
        rounds := rounds + [Round(h, peers, rest.attempts)];
        AgreeSize(jobs, ready, readySet, workers, stuck);
      }
    }

    /** A worker is there for exactly the running jobs. */
    lemma WorkerFacts(h: InfoHash)
      requires Valid()
      ensures h in workers <==> h in View().running
      ensures h in workers ==> h in View().jobs
    {
      hide StateOk, Agree, Running, Working, Abs;
      AgreeAt(jobs, ready, readySet, workers, stuck, h);
      if h in View().running {
        RunningHasJob(View(), limits, h);
      }
    }

    /** join_next with the outcome of some worker, then apply_job_outcome. */
    method JoinNext(outcome: JobOutcome)
      requires Valid() && outcome.hash in workers
      modifies this
      ensures Valid() && outcome.hash in old(View()).jobs && View() == Finish(old(View()), outcome)
      ensures outcome.hash in old(jobs)
      ensures outcome.hash in jobs
              <==> !outcome.complete && !outcome.terminal && !outcome.parked && |old(jobs)[outcome.hash].peers| > 0
      ensures outcome.hash in jobs ==>
                && var job := old(jobs)[outcome.hash];
                && jobs == old(jobs)[outcome.hash := HashJob(job.peers, job.peerSet, false,
                                                             Min(job.attempts + outcome.attempts, 4294967295))]
                && ready == old(ready) + [outcome.hash] && readySet == old(readySet) + {outcome.hash}
      ensures outcome.hash !in jobs ==>
                && jobs == old(jobs) - {outcome.hash}
                && ready == old(ready) && outcome.hash !in ready && readySet == old(readySet) && outcome.hash !in readySet
      ensures workers == old(workers) - multiset{outcome.hash} && outcome.hash !in workers
      ensures rounds == old(rounds) && stuck == old(stuck) && outcome.hash !in stuck
    {
      hide StateOk, Agree, Running, Working, SetOf, Abs, Busy, Finish;
      var h := outcome.hash;
      AgreeAt(jobs, ready, readySet, workers, stuck, h);
      RunningHasJob(View(), limits, h);
      FinishKeeps(View(), limits, outcome);
      workers := workers - multiset{h};
      var remove := false;
      if outcome.complete || outcome.terminal || outcome.parked {
        remove := true;
      } else if h in jobs {
        var stopped := jobs[h].(running := false, attempts := Saturated(jobs[h].attempts + outcome.attempts));
        if stopped.peers == [] {
          remove := true;
        } else {
          StoppedView(jobs, ready, stuck, rounds, outcome);
          AgreeStop(jobs, ready, readySet, old(workers), stuck, h, stopped);
          jobs := jobs[h := stopped];
          if h !in readySet {
            readySet := readySet + {h};
            ready := ready + [h];
          }
        }
      }
      if remove {
        DroppedView(jobs, ready, stuck, rounds, outcome);
        AgreeDrop(jobs, ready, readySet, old(workers), stuck, h);
        jobs := jobs - {h};
        readySet := readySet - {h};
      }
    }

    /** join_next after the worker panicked: the error is logged, the job stays marked as running. */
    method JoinPanicked(h: InfoHash)
      requires Valid() && h in workers
      modifies this
      ensures Valid() && h in old(View()).running && View() == Panicked(old(View()), h)
    {
      hide StateOk, Agree, Running, Working, Abs;
      AgreePanic(jobs, ready, readySet, workers, stuck, h);
      PanickedKeeps(View(), limits, h);
      workers := workers - multiset{h};
      stuck := stuck + {h};
    }

    /** load_due_jobs: the first max_active due rows, without the tracked ones, as far as there is room. */
    method LoadDueJobs(due: seq<DueJob>) returns (loaded: seq<DueJob>)
      requires DistinctHashes(due)
      ensures loaded == Take(Untracked(due, jobs.Keys), Free(limits, |jobs|))
    {
      loaded := FirstUntracked(due, jobs.Keys, limits);
    }

    /** The retry tick: what was loaded is admitted, and there is always room for it. */
    method AdmitDueJobs(due: seq<DueJob>) returns (admissions: seq<JobAdmission>)
      requires Valid() && DistinctHashes(due)
      modifies this
      ensures Valid() && View() == React(old(View()), limits, Retry(due)) && AtCapacity !in admissions
    {
      hide StateOk, Admit, Agree, Running, Working, Abs, Untracked;
      AbsSize(jobs);
      var records := LoadDueJobs(due);
      ghost var before := View();
      AdmitDueNeverFull(before, limits, records);
      admissions := [];
      var i := 0;
      while i < |records|
        invariant 0 <= i <= |records| && Valid()
        invariant (View(), admissions) == AdmitDue(before, limits, records[..i])
      {
        var admission := AdmitJobPeers(records[i].hash, records[i].peers, records[i].attempts);
        admissions := admissions + [admission];
        assert records[..i + 1][..i] == records[..i];
        i := i + 1;
      }
      assert records[..|records|] == records;
    }

    /** Turns of run_metadata_fetcher's loop. */
    method Loop(inputs: seq<Input>)
      requires Valid() && (forall i | 0 <= i < |inputs| :: InputOk(inputs[i]))
      modifies this
      ensures Valid() && old(Valid()) && View() == Run(old(View()), limits, inputs)
    {
      hide StateOk, Admit, Prioritize, AdmitDue, Finish, Agree, Abs, Running, Working, Dispatch, Panicked, Untracked;
      var i := 0;
      while i < |inputs|
        invariant 0 <= i <= |inputs| && Valid() && View() == Run(old(View()), limits, inputs[..i])
      {
        assert inputs[..i + 1][..i] == inputs[..i];
        DispatchReady();
        match inputs[i] {
          case Discovery(h, peers) =>
            var admission := AdmitJobPeers(h, peers, 0);
            PrioritizeReadyJob(h, admission);
          case Retry(due) =>
            assert InputOk(inputs[i]);
            var _ := AdmitDueJobs(due);
          case Worker(outcome) =>
            WorkerFacts(outcome.hash);
            if outcome.hash in workers {
              JoinNext(outcome);
            }
          case WorkerPanic(h) =>
            WorkerFacts(h);
            if h in workers {
              JoinPanicked(h);
            }
        }
        i := i + 1;
      }
      assert inputs[..|inputs|] == inputs;
    }
  }

  /** The query for max_active rows, filter and take of load_due_jobs. */
  method FirstUntracked(due: seq<DueJob>, tracked: set<InfoHash>, limits: Limits) returns (loaded: seq<DueJob>)
    requires DistinctHashes(due)
    ensures loaded == Take(Untracked(due, tracked), Free(limits, |tracked|))
  {
    hide DistinctHashes;
    var available := Free(limits, |tracked|);
    loaded := [];
    if available == 0 {
      return;
    }
    var records := Take(due, limits.maxActive);
    var i := 0;
    while i < |records| && |loaded| < available
      invariant 0 <= i <= |records| && |loaded| <= available
      invariant loaded == Untracked(records[..i], tracked)
    {
      assert records[..i + 1][..i] == records[..i];
      if records[i].hash !in tracked {
        loaded := loaded + [records[i]];
      }
      i := i + 1;
    }
    UntrackedPrefix(records, i, tracked);
    assert records[..|records|] == records;
    DueWindowSuffices(due, tracked, limits);
  }

  /** VecDeque::retain. */
  method Retain(ready: seq<InfoHash>, h: InfoHash) returns (kept: seq<InfoHash>)
    ensures kept == Without(ready, h)
  {
    kept := [];
    var i := 0;
    while i < |ready|
      invariant 0 <= i <= |ready| && kept == Without(ready[..i], h)
    {
      assert ready[..i + 1][..i] == ready[..i];
      if ready[i] != h {
        kept := kept + [ready[i]];
      }
      i := i + 1;
    }
    assert ready[..|ready|] == ready;
  }

  lemma {:induction false} WithoutMembers(s: seq<InfoHash>, h: InfoHash)
    ensures forall x :: x in Without(s, h) <==> x in s && x != h
  {
    if |s| > 0 {
      WithoutMembers(s[..|s| - 1], h);
      assert s == s[..|s| - 1] + [s[|s| - 1]];
    }
  }

  lemma ListedIffIdle(s: State, lim: Limits, h: InfoHash)
    requires StateOk(s, lim) && h in s.jobs
    ensures h in s.ready <==> !Busy(s, h)
    ensures NoDup(s.jobs[h].peers)
  {
    assert JobOk(s.jobs[h], Busy(s, h), lim);
  }

  lemma StartFacts(s: State, lim: Limits)
    requires StateOk(s, lim) && s.ready != []
    ensures s.ready[0] in s.jobs && !Busy(s, s.ready[0]) && s.jobs[s.ready[0]].peers != []
    ensures NoDup(s.jobs[s.ready[0]].peers) && SetOf(s.ready[1..]) == SetOf(s.ready) - {s.ready[0]}
  {
    var h := s.ready[0];
    assert h in s.ready;
    assert JobOk(s.jobs[h], Busy(s, h), lim);
    ReadyTail(s.ready);
  }

  lemma RunningHasJob(s: State, lim: Limits, h: InfoHash)
    requires StateOk(s, lim) && h in s.running
    ensures h in s.jobs && h !in s.ready && h !in s.stuck
  {
  }
}
