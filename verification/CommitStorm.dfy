/**
 The commit-storm detector: counts accepted commits per conversation in windows, sweeping
 expired windows when it opens one.  Compared with the history of commits itself.
 */
module CommitStorm {

  datatype Conv = Conv(id: int)

  datatype Window = Window(start: int, n: nat, warned: bool)

  datatype Config = Config(window: int, threshold: int)

  datatype Answer = Answer(n: nat, alarm: bool)

  datatype Commit = Commit(conv: Conv, at: int)

  /** At which count a window alarms: a threshold below one alarms on its first commit. */
  function AlarmAt(cfg: Config): nat {
    if cfg.threshold < 1 then 1 else cfg.threshold
  }

  predicate Expired(cfg: Config, w: Window, now: int) {
    now - w.start > cfg.window
  }

  predicate Fresh(cfg: Config, seen: map<Conv, Window>, c: Commit) {
    c.conv !in seen || Expired(cfg, seen[c.conv], c.at)
  }

  function Swept(cfg: Config, seen: map<Conv, Window>, now: int): map<Conv, Window> {
    map v | v in seen && !Expired(cfg, seen[v], now) :: seen[v]
  }

  /** The window a commit counts in, counted. */
  function Counted(cfg: Config, seen: map<Conv, Window>, c: Commit): Window {
    var w := if Fresh(cfg, seen, c) then Window(c.at, 0, false) else seen[c.conv];
    Window(w.start, w.n + 1, w.warned || w.n + 1 >= cfg.threshold)
  }

  function Reply(cfg: Config, seen: map<Conv, Window>, c: Commit): Answer {
    var w := if Fresh(cfg, seen, c) then Window(c.at, 0, false) else seen[c.conv];
    Answer(w.n + 1, w.n + 1 >= cfg.threshold && !w.warned)
  }

  /** What the detector remembers. */
  function Observed(cfg: Config, seen: map<Conv, Window>, c: Commit): map<Conv, Window> {
    (if Fresh(cfg, seen, c) then Swept(cfg, seen, c.at) else seen)[c.conv := Counted(cfg, seen, c)]
  }

  function Seen(cfg: Config, h: seq<Commit>): map<Conv, Window> {
    if h == [] then map[] else Observed(cfg, Seen(cfg, h[..|h| - 1]), h[|h| - 1])
  }

  /** What it answers to the last commit of a history. */
  function Answered(cfg: Config, h: seq<Commit>): Answer
    requires h != []
  {
    Reply(cfg, Seen(cfg, h[..|h| - 1]), h[|h| - 1])
  }

  // ------------------------------------------------------ the history, never forgotten

  /** The index of the commit that opened this conversation's latest window, or -1. */
  ghost function OpenedAt(cfg: Config, h: seq<Commit>, conv: Conv): (o: int)
    ensures -1 <= o < |h| && (o >= 0 ==> h[o].conv == conv)
  {
    if h == [] then -1
    else
      var n := |h| - 1;
      var o := OpenedAt(cfg, h[..n], conv);
      if h[n].conv != conv then o
      else if o == -1 || h[n].at - h[o].at > cfg.window then n
      else o
  }

  /** How many commits the conversation has made from position `from` on. */
  ghost function CommitsSince(h: seq<Commit>, conv: Conv, from: int): nat {
    if |h| <= from || h == [] then 0
    else CommitsSince(h[..|h| - 1], conv, from) + if h[|h| - 1].conv == conv then 1 else 0
  }

  ghost predicate Clocked(h: seq<Commit>) {
    forall i, j :: 0 <= i < j < |h| ==> h[i].at <= h[j].at
  }

  /** The window of `conv` that the whole history implies. */
  ghost function TrueWindow(cfg: Config, h: seq<Commit>, conv: Conv): Window
    requires OpenedAt(cfg, h, conv) >= 0
  {
    var o := OpenedAt(cfg, h, conv);
    var n := CommitsSince(h, conv, o);
    Window(h[o].at, n, n >= AlarmAt(cfg))
  }

  /** What is remembered is right, and what is forgotten had expired. */
  ghost predicate Faithful(cfg: Config, h: seq<Commit>, seen: map<Conv, Window>, now: int, v: Conv) {
    var o := OpenedAt(cfg, h, v);
    && (v in seen ==> o >= 0 && seen[v] == TrueWindow(cfg, h, v) && seen[v].n >= 1)
    && (v !in seen && o >= 0 ==> now - h[o].at > cfg.window)
  }

  lemma CommitFromItself(h: seq<Commit>, conv: Conv)
    requires h != [] && h[|h| - 1].conv == conv
    ensures CommitsSince(h, conv, |h| - 1) == 1
  {
    assert CommitsSince(h[..|h| - 1], conv, |h| - 1) == 0;
  }

  lemma {:induction false} SeenIsFaithful(cfg: Config, h: seq<Commit>, now: int, v: Conv)
    requires Clocked(h) && forall i :: 0 <= i < |h| ==> h[i].at <= now
    ensures Faithful(cfg, h, Seen(cfg, h), now, v)
  {
    if h != [] {
      var n := |h| - 1;
      SeenIsFaithful(cfg, h[..n], h[n].at, v);
      if h[n].conv == v {
        CommitFromItself(h, v);
      }
    }
  }

  /**
   Sweeping changes no answer: each is the exact number of commits since the window opened,
   and the alarm is raised exactly at the threshold-th.
   */
  lemma AnswersAreExact(cfg: Config, h: seq<Commit>)
    requires Clocked(h) && h != []
    ensures var c := h[|h| - 1].conv;
      var n := CommitsSince(h, c, OpenedAt(cfg, h, c));
      Answered(cfg, h) == Answer(n, n == AlarmAt(cfg))
  {
    var n := |h| - 1;
    SeenIsFaithful(cfg, h[..n], h[n].at, h[n].conv);
    CommitFromItself(h, h[n].conv);
  }

  /** The commits at `i` and `j` fall in one window of their conversation. */
  ghost predicate SameWindow(cfg: Config, h: seq<Commit>, i: nat, j: nat)
    requires i < |h| && j < |h|
  {
    h[i].conv == h[j].conv && OpenedAt(cfg, h[..i + 1], h[i].conv) == OpenedAt(cfg, h[..j + 1], h[j].conv)
  }

  lemma {:induction false} LaterCountsMore(h: seq<Commit>, conv: Conv, from: int, i: nat)
    requires from <= i < |h|
    ensures CommitsSince(h[..i], conv, from) <= CommitsSince(h, conv, from)
    ensures h[|h| - 1].conv == conv ==> CommitsSince(h[..i], conv, from) < CommitsSince(h, conv, from)
  {
    var n := |h| - 1;
    if i < n {
      assert h[..n][..i] == h[..i];
      LaterCountsMore(h[..n], conv, from, i);
    }
  }

  /** At most one alarm in a window. */
  lemma OneAlarmPerWindow(cfg: Config, h: seq<Commit>, i: nat, j: nat)
    requires Clocked(h) && i < j < |h| && SameWindow(cfg, h, i, j)
    ensures !(Answered(cfg, h[..i + 1]).alarm && Answered(cfg, h[..j + 1]).alarm)
  {
    var a, b, conv := h[..i + 1], h[..j + 1], h[j].conv;
    var o := OpenedAt(cfg, a, conv);
    assert a[i].conv == conv && b[j].conv == conv && b[..i + 1] == a;
    AnswersAreExact(cfg, a);
    AnswersAreExact(cfg, b);
    LaterCountsMore(b, conv, o, i + 1);
  }

  /** The commit at `i` raised the alarm of the window opened at `o`. */
  ghost predicate AlarmIn(cfg: Config, h: seq<Commit>, conv: Conv, o: int, i: nat)
    requires i < |h|
  {
    h[i].conv == conv && Answered(cfg, h[..i + 1]).alarm && OpenedAt(cfg, h[..i + 1], conv) == o
  }

  /** And one there is as soon as the window holds enough commits. */
  lemma {:induction false} StormIsAlarmed(cfg: Config, h: seq<Commit>, conv: Conv)
    requires Clocked(h) && OpenedAt(cfg, h, conv) >= 0
    requires CommitsSince(h, conv, OpenedAt(cfg, h, conv)) >= AlarmAt(cfg)
    ensures exists i: nat :: i < |h| && AlarmIn(cfg, h, conv, OpenedAt(cfg, h, conv), i)
  {
    var n := |h| - 1;
    assert h[..n + 1] == h;
    AnswersAreExact(cfg, h);
    if h[n].conv == conv && Answered(cfg, h).alarm {
      assert AlarmIn(cfg, h, conv, OpenedAt(cfg, h, conv), n);
    } else {
      var o := OpenedAt(cfg, h, conv);
      if h[n].conv == conv {
        CommitFromItself(h, conv);
      }
      assert o < n;
      StormIsAlarmed(cfg, h[..n], conv);
      var i: nat :| i < n && AlarmIn(cfg, h[..n], conv, o, i);
      assert h[..n][..i + 1] == h[..i + 1];
      assert AlarmIn(cfg, h, conv, o, i);
    }
  }

  // -------------------------------------------------------------------------- the code

  class StormDetector {
    const cfg: Config
    var seen: map<Conv, Window>
    ghost var history: seq<Commit>

    ghost predicate Valid()
      reads this
    {
      seen == Seen(cfg, history)
    }

    constructor (cfg: Config)
      ensures Valid() && history == [] && this.cfg == cfg
    {
      this.cfg := cfg;
      seen, history := map[], [];
    }

    method Sweep(now: int)
      modifies this`seen
      ensures seen == Swept(cfg, old(seen), now)
    {
      var todo := seen.Keys;
      while todo != {}
        invariant todo <= seen.Keys <= old(seen).Keys
        invariant forall v :: v in seen ==> seen[v] == old(seen)[v]
        invariant forall v :: v in old(seen) && v !in todo ==> (v in seen <==> !Expired(cfg, old(seen)[v], now))
        decreases todo
      {
        var v :| v in todo;
        todo := todo - {v};
        if Expired(cfg, seen[v], now) {
          seen := seen - {v};
        }
      }
    }

    method Observe(conv: Conv, now: int) returns (n: nat, alarm: bool)
      requires Valid()
      modifies this
      ensures Valid() && history == old(history) + [Commit(conv, now)]
      ensures Answer(n, alarm) == Answered(cfg, history)
    {
      history := history + [Commit(conv, now)];
      assert history[..|history| - 1] == old(history);
      if conv !in seen || now - seen[conv].start > cfg.window {
        Sweep(now);
        seen := seen[conv := Window(now, 0, false)];
      }
      var w := seen[conv];
      w := w.(n := w.n + 1);
      alarm := w.n >= cfg.threshold && !w.warned;
      if alarm {
        w := w.(warned := true);
      }
      seen := seen[conv := w];
      n := w.n;
    }
  }
}
