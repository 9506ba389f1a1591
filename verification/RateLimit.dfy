/** The fixed-window limiter.  Times are integers counted from the clock's zero time, which is where the total
    window of a new limiter starts. */
module RateLimit {

  type Key = string

  const PRUNE_ABOVE := 1024

  datatype Window = Window(start: int, count: nat)

  datatype Config = Config(window: int, perKey: int, total: int)

  datatype State = State(keys: map<Key, Window>, all: Window)

  datatype Call = Allow(key: Key, now: int) | Reset(key: Key)

  datatype Answer = Granted | KeySpent(wait: int) | TotalSpent(wait: int) | Forgotten

  const INITIAL := State(map[], Window(0, 0))

  predicate Expired(cfg: Config, w: Window, now: int) {
    now - w.start >= cfg.window
  }

  function Roll(cfg: Config, w: Window, now: int): Window {
    if Expired(cfg, w, now) then Window(now, 0) else w
  }

  function Prune(cfg: Config, keys: map<Key, Window>, now: int): map<Key, Window> {
    if |keys| > PRUNE_ABOVE then map k | k in keys && !Expired(cfg, keys[k], now) :: keys[k] else keys
  }

  /** One call.  With `prunes` false, expired keys are never swept. */
  function Step(cfg: Config, prunes: bool, s: State, call: Call): (State, Answer) {
    match call
    case Reset(key) => (s.(keys := s.keys - {key}), Forgotten)
    case Allow(key, now) =>
      var keys := if prunes then Prune(cfg, s.keys, now) else s.keys;
      var w := Roll(cfg, if key in keys then keys[key] else Window(now, 0), now);
      var all := Roll(cfg, s.all, now);
      if w.count >= cfg.perKey then (State(keys[key := w], all), KeySpent(w.start + cfg.window - now))
      else if all.count >= cfg.total then (State(keys[key := w], all), TotalSpent(all.start + cfg.window - now))
      else (State(keys[key := Window(w.start, w.count + 1)], Window(all.start, all.count + 1)), Granted)
  }

  class Limiter {
    const cfg: Config
    var keys: map<Key, Window>
    var all: Window

    function Value(): State
      reads this
    {
      State(keys, all)
    }

    constructor (perKey: int, total: int, every: int)
      ensures cfg == Config(every, perKey, total) && Value() == INITIAL
    {
      cfg := Config(every, perKey, total);
      keys := map[];
      all := Window(0, 0);
    }

    method Allow(key: Key, now: int) returns (ok: bool, wait: int)
      modifies this
      ensures Value() == Step(cfg, true, old(Value()), Call.Allow(key, now)).0
      ensures var answer := Step(cfg, true, old(Value()), Call.Allow(key, now)).1;
              ok == answer.Granted? && wait == if ok then 0 else answer.wait
    {
      if |keys| > PRUNE_ABOVE {
        Sweep(now);
      }
      var w := if key in keys then keys[key] else Window(now, 0);
      w := Rolled(w, now);
      keys := keys[key := w];
      all := Rolled(all, now);
      if w.count >= cfg.perKey {
        return false, w.start + cfg.window - now;
      }
      if all.count >= cfg.total {
        return false, all.start + cfg.window - now;
      }
      keys := keys[key := Window(w.start, w.count + 1)];
      all := Window(all.start, all.count + 1);
      return true, 0;
    }

    /** Deletes expired keys in whatever order the map gives them. */
    method Sweep(now: int)
      modifies `keys
      ensures keys == map k | k in old(keys) && !Expired(cfg, old(keys)[k], now) :: old(keys)[k]
    {
      var left := keys.Keys;
      while left != {}
        invariant left <= old(keys).Keys
        invariant keys == map k | k in old(keys) && (k in left || !Expired(cfg, old(keys)[k], now)) :: old(keys)[k]
      {
        var k :| k in left;
        if now - keys[k].start >= cfg.window {
          keys := keys - {k};
        }
        left := left - {k};
      }
    }

    method Rolled(w: Window, now: int) returns (r: Window)
      ensures r == Roll(cfg, w, now)
      ensures cfg.window > 0 ==> !Expired(cfg, r, now)
    {
      r := w;
      if now - w.start >= cfg.window {
        r := Window(now, 0);
      }
    }

    method Reset(key: Key)
      modifies this
      ensures Value() == Step(cfg, true, old(Value()), Call.Reset(key)).0
    {
      keys := keys - {key};
    }
  }

  // ---------- Runs ----------

  function After(cfg: Config, prunes: bool, s: State, calls: seq<Call>): State {
    if calls == [] then s
    else Step(cfg, prunes, After(cfg, prunes, s, calls[..|calls| - 1]), calls[|calls| - 1]).0
  }

  /** What the `i`-th call of a run is told. */
  function Told(cfg: Config, prunes: bool, s: State, calls: seq<Call>, i: nat): Answer
    requires i < |calls|
  {
    Step(cfg, prunes, After(cfg, prunes, s, calls[..i]), calls[i]).1
  }

  /** The clock never runs backwards and starts no earlier than `from`. */
  ghost predicate Clocked(calls: seq<Call>, from: int) {
    && (forall i :: 0 <= i < |calls| && calls[i].Allow? ==> from <= calls[i].now)
    && forall i, j :: 0 <= i < j < |calls| && calls[i].Allow? && calls[j].Allow? ==> calls[i].now <= calls[j].now
  }

  /** The clock after a run that started at `from`. */
  function Clock(calls: seq<Call>, from: int): int {
    if calls == [] then from
    else if calls[|calls| - 1].Allow? then calls[|calls| - 1].now
    else Clock(calls[..|calls| - 1], from)
  }

  lemma {:induction false} ClockIsLatest(calls: seq<Call>, from: int)
    requires Clocked(calls, from)
    ensures from <= Clock(calls, from)
    ensures forall i :: 0 <= i < |calls| && calls[i].Allow? ==> calls[i].now <= Clock(calls, from)
    ensures |calls| > 0 ==> Clocked(calls[..|calls| - 1], from)
    ensures |calls| > 0 && calls[|calls| - 1].Allow? ==>
              Clock(calls[..|calls| - 1], from) <= calls[|calls| - 1].now
  {
    if calls != [] {
      var front := calls[..|calls| - 1];
      assert forall i :: 0 <= i < |front| ==> front[i] == calls[i];
      ClockIsLatest(front, from);
      ClockIsAmong(front, from);
    }
  }

  lemma {:induction false} ClockIsAmong(calls: seq<Call>, from: int)
    ensures Clock(calls, from) == from
         || exists i :: 0 <= i < |calls| && calls[i].Allow? && calls[i].now == Clock(calls, from)
  {
    if calls != [] && !calls[|calls| - 1].Allow? {
      var front := calls[..|calls| - 1];
      ClockIsAmong(front, from);
      if Clock(front, from) != from {
        var i :| 0 <= i < |front| && front[i].Allow? && front[i].now == Clock(front, from);
        assert calls[i] == front[i];
      }
    }
  }

  // ---------- Pruning cannot be seen ----------

  /** The swept limiter knows a subset of the keys, and every key it dropped has expired. */
  ghost predicate Swept(cfg: Config, pruned: State, full: State, now: int) {
    && pruned.all == full.all
    && (forall k :: k in pruned.keys ==> k in full.keys && pruned.keys[k] == full.keys[k])
    && (forall k :: k in full.keys && k !in pruned.keys ==> Expired(cfg, full.keys[k], now))
  }

  lemma SweptPruned(cfg: Config, pruned: State, full: State, clock: int, now: int)
    requires Swept(cfg, pruned, full, clock) && clock <= now
    ensures Swept(cfg, pruned.(keys := Prune(cfg, pruned.keys, now)), full, now)
  {
  }

  lemma SweptStep(cfg: Config, pruned: State, full: State, clock: int, call: Call)
    requires Swept(cfg, pruned, full, clock)
    requires call.Allow? ==> clock <= call.now
    ensures Step(cfg, true, pruned, call).1 == Step(cfg, false, full, call).1
    ensures Swept(cfg, Step(cfg, true, pruned, call).0, Step(cfg, false, full, call).0,
                  if call.Allow? then call.now else clock)
  {
    hide Prune;
    if call.Allow? {
      SweptPruned(cfg, pruned, full, clock, call.now);
    }
  }

  lemma {:induction false} SweptRun(cfg: Config, calls: seq<Call>)
    requires Clocked(calls, 0)
    ensures Swept(cfg, After(cfg, true, INITIAL, calls), After(cfg, false, INITIAL, calls), Clock(calls, 0))
  {
    if calls != [] {
      ClockIsLatest(calls, 0);
      SweptRun(cfg, calls[..|calls| - 1]);
      SweptStep(cfg, After(cfg, true, INITIAL, calls[..|calls| - 1]), After(cfg, false, INITIAL, calls[..|calls| - 1]),
                Clock(calls[..|calls| - 1], 0), calls[|calls| - 1]);
    }
  }

  /** Every call of every run is told the same, wait included, as by a limiter that never sweeps. */
  lemma PruningIsInvisible(cfg: Config, calls: seq<Call>)
    requires Clocked(calls, 0)
    ensures forall i :: 0 <= i < |calls| ==> Told(cfg, true, INITIAL, calls, i) == Told(cfg, false, INITIAL, calls, i)
  {
    forall i | 0 <= i < |calls| ensures Told(cfg, true, INITIAL, calls, i) == Told(cfg, false, INITIAL, calls, i) {
      var prefix := calls[..i];
      assert forall j :: 0 <= j < i ==> prefix[j] == calls[j];
      var upto := calls[..i + 1];
      assert upto[..i] == prefix;
      ClockIsLatest(upto, 0);
      SweptRun(cfg, prefix);
      SweptStep(cfg, After(cfg, true, INITIAL, prefix), After(cfg, false, INITIAL, prefix), Clock(prefix, 0), calls[i]);
    }
  }

  // ---------- How many get through ----------

  /** Whose attempts are counted. */
  datatype Scope = Everyone | Only(key: Key)

  predicate Covers(scope: Scope, key: Key) {
    scope.Everyone? || scope.key == key
  }

  /** When the successful attempts in scope were made. */
  function Log(cfg: Config, prunes: bool, calls: seq<Call>, scope: Scope): seq<int> {
    if calls == [] then []
    else
      var n := |calls| - 1;
      Log(cfg, prunes, calls[..n], scope)
      + (if Told(cfg, prunes, INITIAL, calls, n).Granted? && Covers(scope, calls[n].key) then [calls[n].now] else [])
  }

  /** How many entries are at or after `a`. */
  function Since(log: seq<int>, a: int): (n: nat)
    ensures n <= |log|
  {
    if log == [] then 0
    else Since(log[..|log| - 1], a) + (if log[|log| - 1] >= a then 1 else 0)
  }

  /** How many entries lie in the half-open interval from `a` to `b`. */
  function Within(log: seq<int>, a: int, b: int): (n: nat) {
    if log == [] then 0
    else Within(log[..|log| - 1], a, b) + (if a <= log[|log| - 1] < b then 1 else 0)
  }

  lemma {:induction false} WithinIsDifference(log: seq<int>, a: int, b: int)
    requires a <= b
    ensures Within(log, a, b) == Since(log, a) - Since(log, b)
  {
    if log != [] { WithinIsDifference(log[..|log| - 1], a, b); }
  }

  lemma {:induction false} SinceAntitone(log: seq<int>, a: int, b: int)
    requires a <= b
    ensures Since(log, b) <= Since(log, a)
  {
    if log != [] { SinceAntitone(log[..|log| - 1], a, b); }
  }

  lemma {:induction false} SinceAfterAll(log: seq<int>, a: int)
    requires forall i :: 0 <= i < |log| ==> log[i] < a
    ensures Since(log, a) == 0
  {
    if log != [] { SinceAfterAll(log[..|log| - 1], a); }
  }

  lemma SinceAppend(log: seq<int>, x: int, a: int)
    ensures Since(log + [x], a) == Since(log, a) + (if x >= a then 1 else 0)
  {
    assert (log + [x])[..|log|] == log;
  }

  /** A window's count is what the log shows since its start; less than a window's length before the start there
      were at most `cap`, and no interval one window long ever held more than twice `cap`. */
  ghost predicate Tallied(log: seq<int>, w: Window, cap: nat, length: int, now: int) {
    && (forall i :: 0 <= i < |log| ==> log[i] <= now && log[i] < w.start + length)
    && w.start <= now
    && w.count == Since(log, w.start) <= cap
    && (forall a :: w.start - length < a <= w.start ==> Since(log, a) - Since(log, w.start) <= cap)
    && (forall a :: Since(log, a) - Since(log, a + length) <= 2 * cap)
  }

  lemma TalliedRoll(cfg: Config, log: seq<int>, w: Window, cap: nat, clock: int, now: int)
    requires cfg.window > 0 && clock <= now && Tallied(log, w, cap, cfg.window, clock)
    ensures Tallied(log, Roll(cfg, w, now), cap, cfg.window, now)
  {
    if Expired(cfg, w, now) {
      SinceAfterAll(log, now);
      forall a | now - cfg.window < a <= now ensures Since(log, a) - Since(log, now) <= cap {
        SinceAntitone(log, w.start, a);
      }
    }
  }

  lemma TalliedGrant(cfg: Config, log: seq<int>, w: Window, cap: nat, now: int)
    requires cfg.window > 0 && Tallied(log, w, cap, cfg.window, now)
    requires w.count < cap && !Expired(cfg, w, now)
    ensures Tallied(log + [now], Window(w.start, w.count + 1), cap, cfg.window, now)
  {
    var log' := log + [now];
    forall a ensures Since(log', a) == Since(log, a) + (if now >= a then 1 else 0) { SinceAppend(log, now, a); }
    forall a ensures Since(log', a) - Since(log', a + cfg.window) <= 2 * cap {
      if a <= now < a + cfg.window {
        if a <= w.start {
          SinceAntitone(log, w.start, a + cfg.window);
        } else {
          SinceAntitone(log, w.start, a);
        }
      }
    }
  }

  function Cap(limit: int): nat {
    if limit < 0 then 0 else limit
  }

  lemma {:induction false} TotalTallied(cfg: Config, calls: seq<Call>)
    requires cfg.window > 0 && Clocked(calls, 0)
    ensures Tallied(Log(cfg, false, calls, Everyone), After(cfg, false, INITIAL, calls).all, Cap(cfg.total),
                    cfg.window, Clock(calls, 0))
  {
    if calls != [] {
      var n := |calls| - 1;
      var log := Log(cfg, false, calls[..n], Everyone);
      var s := After(cfg, false, INITIAL, calls[..n]);
      ClockIsLatest(calls, 0);
      TotalTallied(cfg, calls[..n]);
      assert log + [] == log;
      if calls[n].Allow? {
        var now := calls[n].now;
        TalliedRoll(cfg, log, s.all, Cap(cfg.total), Clock(calls[..n], 0), now);
        if Told(cfg, false, INITIAL, calls, n).Granted? {
          TalliedGrant(cfg, log, Roll(cfg, s.all, now), Cap(cfg.total), now);
        }
      }
    }
  }

  ghost predicate KeyWell(cfg: Config, log: seq<int>, s: State, key: Key, now: int) {
    if key in s.keys then Tallied(log, s.keys[key], Cap(cfg.perKey), cfg.window, now) else log == []
  }

  lemma KeyAttempt(cfg: Config, log: seq<int>, s: State, key: Key, clock: int, now: int)
    requires cfg.window > 0 && clock <= now && KeyWell(cfg, log, s, key, clock)
    ensures var (s', answer) := Step(cfg, false, s, Allow(key, now));
            KeyWell(cfg, if answer.Granted? then log + [now] else log, s', key, now)
  {
    var w := if key in s.keys then s.keys[key] else Window(now, 0);
    TalliedRoll(cfg, log, w, Cap(cfg.perKey), if key in s.keys then clock else now, now);
    if Step(cfg, false, s, Allow(key, now)).1.Granted? {
      TalliedGrant(cfg, log, Roll(cfg, w, now), Cap(cfg.perKey), now);
    }
  }

  lemma KeyUntouched(cfg: Config, log: seq<int>, s: State, key: Key, clock: int, call: Call)
    requires KeyWell(cfg, log, s, key, clock)
    requires call.key != key && (call.Allow? ==> clock <= call.now)
    ensures KeyWell(cfg, log, Step(cfg, false, s, call).0, key, if call.Allow? then call.now else clock)
  {
  }

  lemma {:induction false} KeyTallied(cfg: Config, calls: seq<Call>, key: Key)
    requires cfg.window > 0 && Clocked(calls, 0) && Reset(key) !in calls
    ensures KeyWell(cfg, Log(cfg, false, calls, Only(key)), After(cfg, false, INITIAL, calls), key, Clock(calls, 0))
  {
    if calls != [] {
      var n := |calls| - 1;
      var log := Log(cfg, false, calls[..n], Only(key));
      var s := After(cfg, false, INITIAL, calls[..n]);
      ClockIsLatest(calls, 0);
      assert forall c :: c in calls[..n] ==> c in calls;
      KeyTallied(cfg, calls[..n], key);
      assert calls[n] in calls;
      assert log + [] == log;
      if calls[n].key == key {
        KeyAttempt(cfg, log, s, key, Clock(calls[..n], 0), calls[n].now);
      } else {
        KeyUntouched(cfg, log, s, key, Clock(calls[..n], 0), calls[n]);
      }
    }
  }

  lemma {:induction false} SameLog(cfg: Config, calls: seq<Call>, scope: Scope)
    requires Clocked(calls, 0)
    ensures Log(cfg, true, calls, scope) == Log(cfg, false, calls, scope)
  {
    if calls != [] {
      ClockIsLatest(calls, 0);
      SameLog(cfg, calls[..|calls| - 1], scope);
      PruningIsInvisible(cfg, calls);
    }
  }

  lemma {:induction false} NoGrantsWithoutWindow(cfg: Config, log: seq<int>, a: int)
    requires cfg.window <= 0
    ensures Within(log, a, a + cfg.window) == 0
  {
    if log != [] { NoGrantsWithoutWindow(cfg, log[..|log| - 1], a); }
  }

  lemma KeyWellBound(cfg: Config, log: seq<int>, s: State, key: Key, now: int, a: int)
    requires cfg.window > 0 && KeyWell(cfg, log, s, key, now)
    ensures Since(log, a) - Since(log, a + cfg.window) <= 2 * Cap(cfg.perKey)
  {
  }

  /** Over every run, whatever is reset, no interval one window long holds more than twice the total budget. */
  lemma TotalBound(cfg: Config, calls: seq<Call>, a: int)
    requires Clocked(calls, 0)
    ensures Within(Log(cfg, true, calls, Everyone), a, a + cfg.window) <= 2 * Cap(cfg.total)
  {
    SameLog(cfg, calls, Everyone);
    if cfg.window > 0 {
      TotalTallied(cfg, calls);
      WithinIsDifference(Log(cfg, false, calls, Everyone), a, a + cfg.window);
    } else {
      NoGrantsWithoutWindow(cfg, Log(cfg, true, calls, Everyone), a);
    }
  }

  /** A key that is not reset gets at most twice its own budget through in any interval one window long. */
  lemma KeyBound(cfg: Config, calls: seq<Call>, key: Key, a: int)
    requires Clocked(calls, 0) && Reset(key) !in calls
    ensures Within(Log(cfg, true, calls, Only(key)), a, a + cfg.window) <= 2 * Cap(cfg.perKey)
  {
    SameLog(cfg, calls, Only(key));
    if cfg.window > 0 {
      var log := Log(cfg, false, calls, Only(key));
      assert Since(log, a) - Since(log, a + cfg.window) <= 2 * Cap(cfg.perKey) by {
        KeyTallied(cfg, calls, key);
        KeyWellBound(cfg, log, After(cfg, false, INITIAL, calls), key, Clock(calls, 0), a);
      }
      WithinIsDifference(log, a, a + cfg.window);
    } else {
      NoGrantsWithoutWindow(cfg, Log(cfg, true, calls, Only(key)), a);
    }
  }

  // ---------- Refusals ----------

  /** The attempts that still count against a window at `now`. */
  function Live(cfg: Config, w: Window, now: int): nat {
    if Expired(cfg, w, now) then 0 else w.count
  }

  function LiveKey(cfg: Config, s: State, key: Key, now: int): nat {
    if key in s.keys then Live(cfg, s.keys[key], now) else 0
  }

  /** How long until a window is over; a fresh one has its whole length to go. */
  function Remaining(cfg: Config, w: Window, now: int): int {
    if Expired(cfg, w, now) then cfg.window else w.start + cfg.window - now
  }

  function RemainingKey(cfg: Config, s: State, key: Key, now: int): int {
    if key in s.keys then Remaining(cfg, s.keys[key], now) else cfg.window
  }

  /** An attempt gets through exactly when fewer than the key's budget count against the key and fewer than the total
      budget count in all.  The key's budget is looked at first, and the wait told is what is left of the window whose
      budget is spent. */
  lemma AnswerIs(cfg: Config, prunes: bool, s: State, key: Key, now: int)
    requires cfg.window > 0
    ensures var answer := Step(cfg, prunes, s, Allow(key, now)).1;
            var mine, all := LiveKey(cfg, s, key, now), Live(cfg, s.all, now);
            && (answer.Granted? <==> mine < cfg.perKey && all < cfg.total)
            && (answer.KeySpent? <==> mine >= cfg.perKey)
            && (answer.TotalSpent? <==> mine < cfg.perKey && all >= cfg.total)
            && (answer.KeySpent? ==> answer.wait == RemainingKey(cfg, s, key, now))
            && (answer.TotalSpent? ==> answer.wait == Remaining(cfg, s.all, now))
  {
  }

  /** What counts is what the log shows: in every run an attempt gets through exactly when the successes since its key's
      window began are fewer than the key's budget, and those since the total window began fewer than the total one; a
      window that is over counts none. */
  lemma GrantedIff(cfg: Config, calls: seq<Call>, i: nat)
    requires cfg.window > 0 && Clocked(calls, 0) && i < |calls| && calls[i].Allow?
    ensures var s, now := After(cfg, true, INITIAL, calls[..i]), calls[i].now;
            var mine := LiveKey(cfg, s, calls[i].key, now);
            var all := if Expired(cfg, s.all, now) then 0 else Since(Log(cfg, true, calls[..i], Everyone), s.all.start);
            && (Told(cfg, true, INITIAL, calls, i).Granted? <==> mine < cfg.perKey && all < cfg.total)
            && (Reset(calls[i].key) !in calls[..i] ==>
                  mine == if calls[i].key !in s.keys || Expired(cfg, s.keys[calls[i].key], now) then 0
                          else Since(Log(cfg, true, calls[..i], Only(calls[i].key)), s.keys[calls[i].key].start))
  {
    var before, key := calls[..i], calls[i].key;
    assert forall j :: 0 <= j < i ==> before[j] == calls[j];
    AnswerIs(cfg, true, After(cfg, true, INITIAL, before), key, calls[i].now);
    SweptRun(cfg, before);
    SameLog(cfg, before, Everyone);
    TotalTallied(cfg, before);
    if Reset(key) !in before {
      SameLog(cfg, before, Only(key));
      KeyTallied(cfg, before, key);
    }
  }

  /** A key that is reset starts over: nothing counts against it, whenever it next tries.  Nothing else changes. */
  lemma ResetForgets(cfg: Config, prunes: bool, s: State, key: Key, other: Key, now: int)
    ensures var s' := Step(cfg, prunes, s, Reset(key)).0;
            && LiveKey(cfg, s', key, now) == 0
            && (other != key ==> LiveKey(cfg, s', other, now) == LiveKey(cfg, s, other, now))
            && s'.all == s.all
  {
  }

  /** Once more than 1024 keys are known, an attempt leaves none whose window is over; up to there it forgets none. */
  lemma SweepsAboveTheMark(cfg: Config, s: State, key: Key, now: int)
    requires cfg.window > 0
    ensures var s' := Step(cfg, true, s, Allow(key, now)).0;
            if |s.keys| > 1024 then forall k :: k in s'.keys ==> !Expired(cfg, s'.keys[k], now)
            else s'.keys.Keys == s.keys.Keys + {key}
  {
  }

  /** A grant adds one attempt to its key and to the total; a refusal adds none anywhere, whatever it swept or rolled. */
  lemma OnlyGrantsCount(cfg: Config, s: State, key: Key, now: int, other: Key, later: int)
    requires now <= later
    ensures var (s', answer) := Step(cfg, true, s, Allow(key, now));
            && (!answer.Granted? ==>
                  LiveKey(cfg, s', other, later) == LiveKey(cfg, s, other, later) && Live(cfg, s'.all, later) == Live(cfg, s.all, later))
            && (answer.Granted? && later == now && cfg.window > 0 ==>
                  && LiveKey(cfg, s', other, now) == LiveKey(cfg, s, other, now) + (if other == key then 1 else 0)
                  && Live(cfg, s'.all, now) == Live(cfg, s.all, now) + 1)
  {
  }

  ghost predicate Started(s: State, now: int) {
    s.all.start <= now && forall k :: k in s.keys ==> s.keys[k].start <= now
  }

  lemma {:induction false} AlwaysStarted(cfg: Config, calls: seq<Call>)
    requires Clocked(calls, 0)
    ensures Started(After(cfg, true, INITIAL, calls), Clock(calls, 0))
  {
    if calls != [] {
      ClockIsLatest(calls, 0);
      AlwaysStarted(cfg, calls[..|calls| - 1]);
    }
  }

  lemma WaitOfOne(cfg: Config, s: State, key: Key, now: int)
    requires Started(s, now)
    ensures var answer := Step(cfg, true, s, Allow(key, now)).1;
            !answer.Granted? ==> (0 < answer.wait <= cfg.window <==> cfg.window > 0)
  {
  }

  /** In every run the wait of a refusal is positive and at most one window, exactly when windows have a length. */
  lemma WaitsAreWithinOneWindow(cfg: Config, calls: seq<Call>, i: nat)
    requires Clocked(calls, 0) && i < |calls| && calls[i].Allow?
    ensures var answer := Told(cfg, true, INITIAL, calls, i);
            !answer.Granted? ==> (0 < answer.wait <= cfg.window <==> cfg.window > 0)
  {
    var upto := calls[..i + 1];
    assert upto[..i] == calls[..i];
    ClockIsLatest(upto, 0);
    AlwaysStarted(cfg, calls[..i]);
    WaitOfOne(cfg, After(cfg, true, INITIAL, calls[..i]), calls[i].key, calls[i].now);
  }

  /** A key refused on its own budget until `until`: its window stands, or it was swept once that time came. */
  ghost predicate Spent(cfg: Config, s: State, key: Key, until: int, clock: int) {
    if key in s.keys then s.keys[key].start + cfg.window == until && s.keys[key].count >= cfg.perKey
    else clock >= until
  }

  lemma SpentStep(cfg: Config, s: State, key: Key, until: int, clock: int, call: Call)
    requires Spent(cfg, s, key, until, clock) && call != Reset(key)
    requires call.Allow? ==> clock <= call.now && (call.key == key ==> call.now < until)
    ensures Spent(cfg, Step(cfg, true, s, call).0, key, until, if call.Allow? then call.now else clock)
  {
  }

  lemma {:induction false} StaysSpent(cfg: Config, s: State, key: Key, until: int, from: int, later: seq<Call>)
    requires Spent(cfg, s, key, until, from) && Clocked(later, from) && Reset(key) !in later
    requires forall i :: 0 <= i < |later| && later[i].Allow? && later[i].key == key ==> later[i].now < until
    ensures Spent(cfg, After(cfg, true, s, later), key, until, Clock(later, from))
  {
    if later != [] {
      var n := |later| - 1;
      ClockIsLatest(later, from);
      assert forall c :: c in later[..n] ==> c in later;
      assert later[n] in later;
      StaysSpent(cfg, s, key, until, from, later[..n]);
      SpentStep(cfg, After(cfg, true, s, later[..n]), key, until, Clock(later[..n], from), later[n]);
    }
  }

  /** Told again: refused with the rest of the wait while it lasts, and not refused on the key's budget behind it. */
  lemma SpentIsTold(cfg: Config, s: State, key: Key, until: int, clock: int, now: int)
    requires Spent(cfg, s, key, until, clock) && clock <= now
    ensures var answer := Step(cfg, true, s, Allow(key, now)).1;
            if now < until then answer == KeySpent(until - now) else cfg.perKey >= 1 ==> !answer.KeySpent?
  {
  }

  /** The wait is exact.  After a refusal on the key's budget, in any later calls that do not reset the key, every
      earlier attempt on it is refused with the remaining wait, and the first one at or after it is not refused on
      that budget (given a budget to return to). */
  lemma WaitIsExact(cfg: Config, s: State, key: Key, now: int, later: seq<Call>, i: nat)
    requires Step(cfg, true, s, Allow(key, now)).1.KeySpent?
    requires Clocked(later, now) && i < |later| && later[i].Allow? && later[i].key == key && Reset(key) !in later
    requires var until := now + Step(cfg, true, s, Allow(key, now)).1.wait;
             forall j :: 0 <= j < i && later[j].Allow? && later[j].key == key ==> later[j].now < until
    ensures var (s', answer) := Step(cfg, true, s, Allow(key, now));
            var told := Told(cfg, true, s', later, i);
            if later[i].now < now + answer.wait then told == KeySpent(now + answer.wait - later[i].now)
            else cfg.perKey >= 1 ==> !told.KeySpent?
  {
    hide Step, Spent, After, Clock;
    var (s', answer) := Step(cfg, true, s, Allow(key, now));
    var prefix := later[..i];
    assert forall c :: c in prefix ==> c in later;
    var upto := later[..i + 1];
    assert upto[..i] == prefix;
    ClockIsLatest(upto, now);
    SpentFromNow(cfg, s, key, now);
    StaysSpent(cfg, s', key, now + answer.wait, now, prefix);
    SpentIsTold(cfg, After(cfg, true, s', prefix), key, now + answer.wait, Clock(prefix, now), later[i].now);
  }

  lemma SpentFromNow(cfg: Config, s: State, key: Key, now: int)
    requires Step(cfg, true, s, Allow(key, now)).1.KeySpent?
    ensures var (after, answer) := Step(cfg, true, s, Allow(key, now));
            Spent(cfg, after, key, now + answer.wait, now)
  {
  }
}
