/**
 The push pump: a lock-free byte budget in front of a bounded channel.  Every atomic add,
 channel operation and clock reading is a step of its own, taken by any offering thread
 or worker in any order.
 */
module PushPump {
  import opened Sums

  datatype Job = Job(id: nat, size: nat, queuedAt: int)

  /** Where an offer stands. */
  datatype Sender =
    | Reserved(job: Job)    // its bytes are in the counter and within the budget
    | OverBudget(job: Job)  // its bytes are in the counter, beyond the budget
    | NoSlot(job: Job)      // within the budget, but the channel was full
    | RolledBack(job: Job)  // bytes given back, not counted yet
    | Done                  // offer has returned

  /** Where a worker stands. */
  datatype Worker =
    | Idle
    | Picked(job: Job)      // received from the channel, bytes not released yet
    | Released(job: Job)    // bytes released, age not looked at yet
    | Running

  datatype Run = Run(job: Job, at: int)

  datatype Config = Config(depth: nat, maxBytes: nat, maxWait: int)

  datatype Pump = Pump(
    queued: int,            // the byte counter
    q: seq<Job>,            // the channel's buffer
    senders: seq<Sender>,
    workers: seq<Worker>,
    full: nat,
    stale: nat,
    offered: seq<Job>,      // history: every job offered
    entered: seq<Job>,      // history: every job that got into the channel
    taken: seq<Job>,        // history: every job a worker received
    refused: seq<Job>,      // history: every offer refused and counted
    dropped: seq<Run>,      // history: every job dropped as too old, and when
    ran: seq<Run>)          // history: every job run, and when

  datatype Action =
    | Offer(size: nat, queuedAt: int)
    | TrySend(sender: nat)
    | HandOver(sender: nat, worker: nat)
    | RollBack(sender: nat)
    | CountFull(sender: nat)
    | Receive(worker: nat)
    | Release(worker: nat)
    | Decide(worker: nat, now: int)
    | Finish(worker: nat)

  function Initial(workers: nat): Pump {
    Pump(0, [], [], seq(workers, _ => Idle), 0, 0, [], [], [], [], [], [])
  }

  predicate Enabled(cfg: Config, p: Pump, a: Action) {
    match a
    case Offer(_, _) => true
    case TrySend(i) => i < |p.senders| && p.senders[i].Reserved?
    case HandOver(i, w) => i < |p.senders| && p.senders[i].Reserved? && p.q == [] && w < |p.workers| && p.workers[w].Idle?
    case RollBack(i) => i < |p.senders| && (p.senders[i].OverBudget? || p.senders[i].NoSlot?)
    case CountFull(i) => i < |p.senders| && p.senders[i].RolledBack?
    case Receive(w) => w < |p.workers| && p.workers[w].Idle? && p.q != []
    case Release(w) => w < |p.workers| && p.workers[w].Picked?
    case Decide(w, _) => w < |p.workers| && p.workers[w].Released?
    case Finish(w) => w < |p.workers| && p.workers[w].Running?
  }

  function Step(cfg: Config, p: Pump, a: Action): Pump {
    if !Enabled(cfg, p, a) then p
    else match a
      case Offer(size, queuedAt) =>
        var job := Job(|p.offered|, size, queuedAt);
        var total := p.queued + size;
        p.(queued := total,
           offered := p.offered + [job],
           senders := p.senders + [if total > cfg.maxBytes then OverBudget(job) else Reserved(job)])
      case TrySend(i) =>
        var job := p.senders[i].job;
        if |p.q| < cfg.depth
        then p.(q := p.q + [job], entered := p.entered + [job], senders := p.senders[i := Done])
        else p.(senders := p.senders[i := NoSlot(job)])
      case HandOver(i, w) =>
        // A send that finds a worker waiting passes the job straight to it.
        var job := p.senders[i].job;
        p.(entered := p.entered + [job], taken := p.taken + [job],
           senders := p.senders[i := Done], workers := p.workers[w := Picked(job)])
      case RollBack(i) =>
        var job := p.senders[i].job;
        p.(queued := p.queued - job.size, senders := p.senders[i := RolledBack(job)])
      case CountFull(i) =>
        p.(full := p.full + 1, refused := p.refused + [p.senders[i].job], senders := p.senders[i := Done])
      case Receive(w) =>
        p.(q := p.q[1..], taken := p.taken + [p.q[0]], workers := p.workers[w := Picked(p.q[0])])
      case Release(w) =>
        var job := p.workers[w].job;
        p.(queued := p.queued - job.size, workers := p.workers[w := Released(job)])
      case Decide(w, now) =>
        var job := p.workers[w].job;
        if now - job.queuedAt > cfg.maxWait
        then p.(stale := p.stale + 1, dropped := p.dropped + [Run(job, now)], workers := p.workers[w := Idle])
        else p.(ran := p.ran + [Run(job, now)], workers := p.workers[w := Running])
      case Finish(w) =>
        p.(workers := p.workers[w := Idle])
  }

  function After(cfg: Config, workers: nat, actions: seq<Action>): Pump {
    if actions == [] then Initial(workers)
    else Step(cfg, After(cfg, workers, actions[..|actions| - 1]), actions[|actions| - 1])
  }

  // --------------------------------------------------------------------- bytes

  ghost function ReservedBytes(s: Sender): nat {
    if s.Reserved? || s.NoSlot? then s.job.size else 0
  }

  ghost function RefusedBytes(s: Sender): nat {
    if s.OverBudget? then s.job.size else 0
  }

  ghost function HeldBytes(w: Worker): nat {
    if w.Picked? then w.job.size else 0
  }

  ghost function JobBytes(j: Job): nat {
    j.size
  }

  /** Bytes that passed the check and have not been released or rolled back. */
  ghost function Admitted(p: Pump): nat {
    Sum(JobBytes, p.q) + Sum(ReservedBytes, p.senders) + Sum(HeldBytes, p.workers)
  }

  /** Bytes of refused offers that are still in the counter. */
  ghost function Overshoot(p: Pump): nat {
    Sum(RefusedBytes, p.senders)
  }

  ghost predicate BytesInv(cfg: Config, p: Pump) {
    p.queued == Admitted(p) + Overshoot(p) && Admitted(p) <= cfg.maxBytes
  }

  lemma SenderMoves(p: Pump, i: nat, x: Sender)
    requires i < |p.senders|
    ensures Sum(ReservedBytes, p.senders[i := x]) + ReservedBytes(p.senders[i])
         == Sum(ReservedBytes, p.senders) + ReservedBytes(x)
    ensures Sum(RefusedBytes, p.senders[i := x]) + RefusedBytes(p.senders[i])
         == Sum(RefusedBytes, p.senders) + RefusedBytes(x)
  {
    SumUpdate(ReservedBytes, p.senders, i, x);
    SumUpdate(RefusedBytes, p.senders, i, x);
  }

  lemma OfferKeepsBytes(cfg: Config, p: Pump, size: nat, queuedAt: int)
    requires BytesInv(cfg, p) && Enabled(cfg, p, Offer(size, queuedAt))
    ensures BytesInv(cfg, Step(cfg, p, Offer(size, queuedAt)))
  {
    var job := Job(|p.offered|, size, queuedAt);
    var x := if p.queued + size > cfg.maxBytes then OverBudget(job) else Reserved(job);
    SumAppend(ReservedBytes, p.senders, x);
    SumAppend(RefusedBytes, p.senders, x);
  }

  lemma TrySendKeepsBytes(cfg: Config, p: Pump, i: nat)
    requires BytesInv(cfg, p) && Enabled(cfg, p, TrySend(i))
    ensures BytesInv(cfg, Step(cfg, p, TrySend(i)))
  {
    var job := p.senders[i].job;
    SenderMoves(p, i, if |p.q| < cfg.depth then Done else NoSlot(job));
    SumAppend(JobBytes, p.q, job);
  }

  lemma HandOverKeepsBytes(cfg: Config, p: Pump, i: nat, w: nat)
    requires BytesInv(cfg, p) && Enabled(cfg, p, HandOver(i, w))
    ensures BytesInv(cfg, Step(cfg, p, HandOver(i, w)))
  {
    SenderMoves(p, i, Done);
    SumUpdate(HeldBytes, p.workers, w, Picked(p.senders[i].job));
  }

  lemma RollBackKeepsBytes(cfg: Config, p: Pump, i: nat)
    requires BytesInv(cfg, p) && Enabled(cfg, p, RollBack(i))
    ensures BytesInv(cfg, Step(cfg, p, RollBack(i)))
  {
    SenderMoves(p, i, RolledBack(p.senders[i].job));
  }

  lemma WorkerKeepsBytes(cfg: Config, p: Pump, w: nat, a: Action)
    requires BytesInv(cfg, p) && Enabled(cfg, p, a)
    requires a in {Receive(w), Release(w), Finish(w)} || (a.Decide? && a.worker == w)
    ensures BytesInv(cfg, Step(cfg, p, a))
  {
    SumUpdate(HeldBytes, p.workers, w, Step(cfg, p, a).workers[w]);
  }

  lemma StepKeepsBytes(cfg: Config, p: Pump, a: Action)
    requires BytesInv(cfg, p)
    ensures BytesInv(cfg, Step(cfg, p, a))
  {
    if Enabled(cfg, p, a) {
      match a
      case Offer(size, queuedAt) => OfferKeepsBytes(cfg, p, size, queuedAt);
      case TrySend(i) => TrySendKeepsBytes(cfg, p, i);
      case HandOver(i, w) => HandOverKeepsBytes(cfg, p, i, w);
      case RollBack(i) => RollBackKeepsBytes(cfg, p, i);
      case CountFull(i) => SenderMoves(p, i, Done);
      case Receive(w) => WorkerKeepsBytes(cfg, p, w, a);
      case Release(w) => WorkerKeepsBytes(cfg, p, w, a);
      case Decide(w, _) => WorkerKeepsBytes(cfg, p, w, a);
      case Finish(w) => WorkerKeepsBytes(cfg, p, w, a);
    }
  }

  lemma {:induction false} IdleHoldNothing(n: nat)
    ensures Sum(HeldBytes, seq(n, _ => Idle)) == 0
    ensures forall j :: Sum(WorkerHas(j), seq(n, _ => Idle)) == 0
  {
    if n > 0 {
      assert seq(n, _ => Idle)[1..] == seq(n - 1, _ => Idle);
      IdleHoldNothing(n - 1);
    }
  }

  /**
   Over every interleaving the counter is exactly the admitted bytes plus those of refused
   offers not rolled back yet: never negative, and above the budget only by the latter.
   */
  lemma {:induction false} BytesAreAccountedFor(cfg: Config, workers: nat, actions: seq<Action>)
    ensures var p := After(cfg, workers, actions);
      && p.queued == Admitted(p) + Overshoot(p)
      && Admitted(p) <= cfg.maxBytes
      && 0 <= p.queued <= cfg.maxBytes + Overshoot(p)
  {
    if actions == [] {
      IdleHoldNothing(workers);
    } else {
      var n := |actions| - 1;
      BytesAreAccountedFor(cfg, workers, actions[..n]);
      StepKeepsBytes(cfg, After(cfg, workers, actions[..n]), actions[n]);
    }
  }

  ghost predicate Quiet(p: Pump) {
    (forall i :: 0 <= i < |p.senders| ==> p.senders[i].Done?)
    && (forall w :: 0 <= w < |p.workers| ==> !p.workers[w].Picked?)
  }

  lemma {:induction false} DoneHoldNothing(s: seq<Sender>)
    requires forall i :: 0 <= i < |s| ==> s[i].Done?
    ensures Sum(ReservedBytes, s) == 0 && Sum(RefusedBytes, s) == 0
  {
    if s != [] {
      DoneHoldNothing(s[1..]);
    }
  }

  lemma {:induction false} UnpickedHoldNothing(s: seq<Worker>)
    requires forall w :: 0 <= w < |s| ==> !s[w].Picked?
    ensures Sum(HeldBytes, s) == 0
  {
    if s != [] {
      UnpickedHoldNothing(s[1..]);
    }
  }

  /** No reservation leaks: when nobody is between two steps, the counter is what the queue holds. */
  lemma QuietCounterIsTheQueue(cfg: Config, workers: nat, actions: seq<Action>)
    requires Quiet(After(cfg, workers, actions))
    ensures var p := After(cfg, workers, actions); p.queued == Sum(JobBytes, p.q) <= cfg.maxBytes
  {
    BytesAreAccountedFor(cfg, workers, actions);
    DoneHoldNothing(After(cfg, workers, actions).senders);
    UnpickedHoldNothing(After(cfg, workers, actions).workers);
  }

  // ---------------------------------------------------------------------- fates

  ghost function SenderHas(j: Job): Sender -> nat {
    (s: Sender) => if !s.Done? && s.job == j then 1 else 0
  }

  ghost function WorkerHas(j: Job): Worker -> nat {
    (w: Worker) => if (w.Picked? || w.Released?) && w.job == j then 1 else 0
  }

  function Jobs(runs: seq<Run>): (r: seq<Job>)
    ensures |r| == |runs|
    ensures forall i :: 0 <= i < |runs| ==> r[i] == runs[i].job
  {
    if runs == [] then [] else [runs[0].job] + Jobs(runs[1..])
  }

  lemma JobsAppend(runs: seq<Run>, r: Run, j: Job)
    ensures Occurs(Jobs(runs + [r]), j) == Occurs(Jobs(runs), j) + if r.job == j then 1 else 0
  {
    assert Jobs(runs + [r]) == Jobs(runs) + [r.job];
    OccursAppend(Jobs(runs), r.job, j);
  }

  /** In how many places `j` is: being offered, waiting, held by a worker, refused, dropped or run. */
  ghost function Places(p: Pump, j: Job): nat {
    Sum(SenderHas(j), p.senders) + Occurs(p.q, j) + Occurs(p.refused, j) + PastChannel(p, j)
  }

  /** In how many places `j` is once a worker has received it: held, dropped or run. */
  ghost function PastChannel(p: Pump, j: Job): nat {
    Sum(WorkerHas(j), p.workers) + Occurs(Jobs(p.dropped), j) + Occurs(Jobs(p.ran), j)
  }

  ghost predicate LogsInv(cfg: Config, p: Pump) {
    && (forall i :: 0 <= i < |p.offered| ==> p.offered[i].id == i)
    && p.entered == p.taken + p.q
    && p.full == |p.refused| && p.stale == |p.dropped|
    && (forall r :: r in p.ran ==> r.at - r.job.queuedAt <= cfg.maxWait)
    && (forall r :: r in p.dropped ==> r.at - r.job.queuedAt > cfg.maxWait)
  }

  ghost predicate PlacesInv(p: Pump, j: Job) {
    Occurs(p.offered, j) == Places(p, j) && Occurs(p.taken, j) == PastChannel(p, j)
  }

  lemma StepKeepsLogs(cfg: Config, p: Pump, a: Action)
    requires LogsInv(cfg, p)
    ensures LogsInv(cfg, Step(cfg, p, a))
  {
    if Enabled(cfg, p, a) && (a.TrySend? || a.HandOver? || a.Receive?) {
      var t := Step(cfg, p, a);
      assert t.entered == t.taken + t.q;
    }
  }

  lemma TrySendKeepsPlaces(cfg: Config, p: Pump, i: nat, j: Job)
    requires PlacesInv(p, j) && Enabled(cfg, p, TrySend(i))
    ensures PlacesInv(Step(cfg, p, TrySend(i)), j)
  {
    var job := p.senders[i].job;
    SumUpdate(SenderHas(j), p.senders, i, if |p.q| < cfg.depth then Done else NoSlot(job));
    OccursAppend(p.q, job, j);
  }

  lemma RollBackKeepsPlaces(cfg: Config, p: Pump, i: nat, j: Job)
    requires PlacesInv(p, j) && Enabled(cfg, p, RollBack(i))
    ensures PlacesInv(Step(cfg, p, RollBack(i)), j)
  {
    SumUpdate(SenderHas(j), p.senders, i, RolledBack(p.senders[i].job));
  }

  lemma CountFullKeepsPlaces(cfg: Config, p: Pump, i: nat, j: Job)
    requires PlacesInv(p, j) && Enabled(cfg, p, CountFull(i))
    ensures PlacesInv(Step(cfg, p, CountFull(i)), j)
  {
    SumUpdate(SenderHas(j), p.senders, i, Done);
    OccursAppend(p.refused, p.senders[i].job, j);
  }

  lemma ReceiveKeepsPlaces(cfg: Config, p: Pump, w: nat, j: Job)
    requires PlacesInv(p, j) && Enabled(cfg, p, Receive(w))
    ensures PlacesInv(Step(cfg, p, Receive(w)), j)
  {
    SumUpdate(WorkerHas(j), p.workers, w, Picked(p.q[0]));
    OccursHead(p.q, j);
    OccursAppend(p.taken, p.q[0], j);
  }

  lemma ReleaseKeepsPlaces(cfg: Config, p: Pump, w: nat, j: Job)
    requires PlacesInv(p, j) && Enabled(cfg, p, Release(w))
    ensures PlacesInv(Step(cfg, p, Release(w)), j)
  {
    SumUpdate(WorkerHas(j), p.workers, w, Released(p.workers[w].job));
  }

  lemma DecideKeepsPlaces(cfg: Config, p: Pump, w: nat, now: int, j: Job)
    requires PlacesInv(p, j) && Enabled(cfg, p, Decide(w, now))
    ensures PlacesInv(Step(cfg, p, Decide(w, now)), j)
  {
    var job := p.workers[w].job;
    SumUpdate(WorkerHas(j), p.workers, w, if now - job.queuedAt > cfg.maxWait then Idle else Running);
    JobsAppend(p.dropped, Run(job, now), j);
    JobsAppend(p.ran, Run(job, now), j);
  }

  lemma SenderJoins(p: Pump, t: Pump, s: Sender, j: Job)
    requires PlacesInv(p, j) && !s.Done?
    requires t.senders == p.senders + [s] && t.offered == p.offered + [s.job]
    requires t.q == p.q && t.refused == p.refused && t.workers == p.workers
    requires t.dropped == p.dropped && t.ran == p.ran && t.taken == p.taken
    ensures PlacesInv(t, j)
  {
    SumAppend(SenderHas(j), p.senders, s);
    OccursAppend(p.offered, s.job, j);
  }

  lemma OfferKeepsPlaces(cfg: Config, p: Pump, size: nat, queuedAt: int, j: Job)
    requires PlacesInv(p, j)
    ensures PlacesInv(Step(cfg, p, Offer(size, queuedAt)), j)
  {
    var job := Job(|p.offered|, size, queuedAt);
    SenderJoins(p, Step(cfg, p, Offer(size, queuedAt)),
                if p.queued + size > cfg.maxBytes then OverBudget(job) else Reserved(job), j);
  }

  lemma HandOverKeepsPlaces(cfg: Config, p: Pump, i: nat, w: nat, j: Job)
    requires PlacesInv(p, j) && Enabled(cfg, p, HandOver(i, w))
    ensures PlacesInv(Step(cfg, p, HandOver(i, w)), j)
  {
    var job := p.senders[i].job;
    SumUpdate(SenderHas(j), p.senders, i, Done);
    SumUpdate(WorkerHas(j), p.workers, w, Picked(job));
    OccursAppend(p.taken, job, j);
  }

  lemma StepKeepsPlaces(cfg: Config, p: Pump, a: Action, j: Job)
    requires PlacesInv(p, j)
    ensures PlacesInv(Step(cfg, p, a), j)
  {
    if Enabled(cfg, p, a) {
      match a
      case Offer(size, queuedAt) => OfferKeepsPlaces(cfg, p, size, queuedAt, j);
      case TrySend(i) => TrySendKeepsPlaces(cfg, p, i, j);
      case HandOver(i, w) => HandOverKeepsPlaces(cfg, p, i, w, j);
      case RollBack(i) => RollBackKeepsPlaces(cfg, p, i, j);
      case CountFull(i) => CountFullKeepsPlaces(cfg, p, i, j);
      case Receive(w) => ReceiveKeepsPlaces(cfg, p, w, j);
      case Release(w) => ReleaseKeepsPlaces(cfg, p, w, j);
      case Decide(w, now) => DecideKeepsPlaces(cfg, p, w, now, j);
      case Finish(w) => SumUpdate(WorkerHas(j), p.workers, w, Idle);
    }
  }

  lemma {:induction false} AfterKeeps(cfg: Config, workers: nat, actions: seq<Action>, j: Job)
    ensures LogsInv(cfg, After(cfg, workers, actions))
    ensures PlacesInv(After(cfg, workers, actions), j)
  {
    if actions == [] {
      IdleHoldNothing(workers);
    } else {
      var n := |actions| - 1;
      AfterKeeps(cfg, workers, actions[..n], j);
      StepKeepsLogs(cfg, After(cfg, workers, actions[..n]), actions[n]);
      StepKeepsPlaces(cfg, After(cfg, workers, actions[..n]), actions[n], j);
    }
  }

  lemma {:induction false} DistinctOnce(s: seq<Job>, j: Job)
    requires forall i, k :: 0 <= i < k < |s| ==> s[i] != s[k]
    ensures Occurs(s, j) == if j in s then 1 else 0
  {
    if s != [] {
      var n := |s| - 1;
      assert s == s[..n] + [s[n]];
      DistinctOnce(s[..n], j);
    }
  }

  /**
   Every offered job is in exactly one place, exactly once: still being offered, waiting,
   held by a worker, refused, dropped as too old, or run.  So nothing runs twice, and
   nothing is both run and dropped or refused.
   */
  lemma EveryJobHasOneFate(cfg: Config, workers: nat, actions: seq<Action>, j: Job)
    ensures var p := After(cfg, workers, actions);
      && Places(p, j) == (if j in p.offered then 1 else 0)
      && Occurs(p.taken, j) == PastChannel(p, j) <= 1
  {
    AfterKeeps(cfg, workers, actions, j);
    var p := After(cfg, workers, actions);
    DistinctOnce(p.offered, j);
  }

  /**
   Jobs leave the channel in the order they entered it, the counters are the exact numbers
   of refusals and of stale drops, and whether a job is run or dropped is decided by its
   wait at pickup alone.
   */
  lemma CountersAndOrderAreExact(cfg: Config, workers: nat, actions: seq<Action>)
    ensures var p := After(cfg, workers, actions);
      && p.taken <= p.entered && p.entered[|p.taken|..] == p.q
      && p.full == |p.refused| && p.stale == |p.dropped|
      && (forall r :: r in p.ran ==> r.at - r.job.queuedAt <= cfg.maxWait)
      && (forall r :: r in p.dropped ==> r.at - r.job.queuedAt > cfg.maxWait)
  {
    AfterKeeps(cfg, workers, actions, Job(0, 0, 0));
  }

  // ------------------------------------------------------------- the code itself

  /** What the steps of one offer come to when nothing interleaves. */
  ghost function OfferedAtOnce(cfg: Config, p: Pump, size: nat, queuedAt: int): Pump {
    var i := |p.senders|;
    var reserved := Step(cfg, p, Offer(size, queuedAt));
    var sent := Step(cfg, reserved, TrySend(i));
    Step(cfg, Step(cfg, sent, RollBack(i)), CountFull(i))
  }

  /** What the steps of one turn of worker `w` come to when nothing interleaves. */
  ghost function WorkedAtOnce(cfg: Config, p: Pump, w: nat, now: int): Pump {
    Step(cfg, Step(cfg, Step(cfg, p, Receive(w)), Release(w)), Decide(w, now))
  }

  class PushQueue {
    const cfg: Config
    var queued: int
    var q: seq<Job>
    var full: nat
    var stale: nat

    ghost predicate Matches(p: Pump)
      reads this
    {
      queued == p.queued && q == p.q && full == p.full && stale == p.stale
    }

    constructor (cfg: Config, ghost workers: nat)
      ensures this.cfg == cfg && Matches(Initial(workers))
    {
      this.cfg := cfg;
      queued, q, full, stale := 0, [], 0, 0;
    }

    /** `offer`: reserve the bytes, then take a slot, and give the bytes back if there is none. */
    method Offer(job: Job, ghost p: Pump) returns (ok: bool)
      requires Matches(p) && job.id == |p.offered|
      modifies this
      ensures Matches(OfferedAtOnce(cfg, p, job.size, job.queuedAt))
      ensures ok <==> old(queued) + job.size <= cfg.maxBytes && |old(q)| < cfg.depth
      ensures ok ==> q == old(q) + [job] && queued == old(queued) + job.size && full == old(full)
      ensures !ok ==> q == old(q) && queued == old(queued) && full == old(full) + 1
      ensures stale == old(stale)
    {
      var size := job.size;
      queued := queued + size;
      if queued > cfg.maxBytes {
        queued := queued - size;
        full := full + 1;
        return false;
      }
      if |q| < cfg.depth {
        q := q + [job];
        return true;
      }
      queued := queued - size;
      full := full + 1;
      ok := false;
    }

    /** One turn of a worker's loop; `run` says whether the job is handed to the fan-out. */
    method Work(now: int, ghost p: Pump, ghost w: nat) returns (job: Job, run: bool)
      requires Matches(p) && Enabled(cfg, p, Receive(w))
      modifies this
      ensures Matches(WorkedAtOnce(cfg, p, w, now))
      ensures [job] + q == old(q) && queued == old(queued) - job.size && full == old(full)
      ensures run <==> now - job.queuedAt <= cfg.maxWait
      ensures stale == old(stale) + if run then 0 else 1
    {
      job, q := q[0], q[1..];
      queued := queued - job.size;
      run := !(now - job.queuedAt > cfg.maxWait);
      if !run {
        stale := stale + 1;
      }
    }
  }
}
