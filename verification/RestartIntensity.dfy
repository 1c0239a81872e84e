/// How often a child may be restarted: a budget of restarts per window, and what that says of arbitrary intervals.

module RestartIntensity {
  import opened Basics
  datatype Record = Record(count: int, timestamp: int)

  datatype Options = Options(maxRestarts: int, periodMs: int)

  /// The record a crash at `now` is judged by: a new one, or one begun anew once its period has passed.
  function Current(r: Option<Record>, now: int, o: Options): Record {
    if r.None? || now - r.value.timestamp > o.periodMs then Record(0, now) else r.value
  }

  function Granted(r: Option<Record>, now: int, o: Options): bool { Current(r, now, o).count < o.maxRestarts }

  /// The record kept. One that was begun anew is kept even when the restart is denied; a new one is not.
  function Next(r: Option<Record>, now: int, o: Options): Option<Record> {
    var c := Current(r, now, o);
    if Granted(r, now, o) then Some(c.(count := c.count + 1)) else if r.None? then None else Some(c)
  }

  function RecordIn<Key>(records: map<Key, Record>, key: Key): Option<Record> {
    if key in records then Some(records[key]) else None
  }

  lemma OthersAreKept<Key>(before: map<Key, Record>, after: map<Key, Record>, key: Key, other: Key)
    requires after - {key} == before - {key} && other != key
    ensures RecordIn(after, other) == RecordIn(before, other)
  {
    assert other in after - {key} <==> other in after;
    assert other in before - {key} <==> other in before;
    if other in after { assert (after - {key})[other] == after[other]; }
  }

  class ChildSupervisor<Key(==)> {
    var restartCounts: map<Key, Record>

    constructor ()
      ensures restartCounts == map[]
    {
      restartCounts := map[];
    }

    function RecordOf(key: Key): Option<Record>
      reads this
    {
      RecordIn(restartCounts, key)
    }

    method CanRestart(key: Key, now: int, options: Options) returns (ok: bool)
      modifies this
      ensures ok == Granted(old(RecordOf(key)), now, options) && RecordOf(key) == Next(old(RecordOf(key)), now, options)
      ensures restartCounts - {key} == old(restartCounts) - {key}
    {
      var record := if key in restartCounts then restartCounts[key] else Record(0, now);
      if now - record.timestamp > options.periodMs {
        record := Record(0, now);
        if key in restartCounts { restartCounts := restartCounts[key := record]; }
      }
      if record.count >= options.maxRestarts { return false; }
      restartCounts := restartCounts[key := Record(record.count + 1, record.timestamp)];
      ok := true;
    }
  }

  /// The record after crashes at these times, and the times at which a restart was granted.
  function After(times: seq<int>, o: Options): Option<Record> {
    if times == [] then None else Next(After(times[..|times| - 1], o), times[|times| - 1], o)
  }

  function Restarts(times: seq<int>, o: Options): seq<int> {
    if times == [] then []
    else
      var before, now := times[..|times| - 1], times[|times| - 1];
      Restarts(before, o) + if Granted(After(before, o), now, o) then [now] else []
  }

  /// How many of the times lie in the closed interval of this length.
  function Within(ts: seq<int>, from: int, length: int): nat {
    if ts == [] then 0
    else Within(ts[..|ts| - 1], from, length) + if from <= ts[|ts| - 1] <= from + length then 1 else 0
  }

  function Since(ts: seq<int>, from: int): nat {
    if ts == [] then 0 else Since(ts[..|ts| - 1], from) + if from <= ts[|ts| - 1] then 1 else 0
  }

  ghost predicate Nondecreasing(ts: seq<int>) { forall i, j :: 0 <= i <= j < |ts| ==> ts[i] <= ts[j] }

  lemma {:induction false} WithinIsPartOfSince(ts: seq<int>, from: int, length: int)
    ensures Within(ts, from, length) <= Since(ts, from)
  {
    if ts != [] { WithinIsPartOfSince(ts[..|ts| - 1], from, length); }
  }

  /// The window begun at `w`: its grants, its first grant, how few grants there are from shortly before it on,
  /// and the bound.
  ghost predicate Window(g: seq<int>, r: Record, o: Options) {
    var w := r.timestamp;
    && 1 <= r.count <= o.maxRestarts && Since(g, w) == r.count
    && (forall x :: x > w + o.periodMs ==> Since(g, x) == 0)
    && (forall x :: x > w ==> Since(g, x) < r.count)
    && (forall x :: x >= w - o.periodMs ==> Since(g, x) < o.maxRestarts + r.count)
    && AtMost(g, o.periodMs, 2 * o.maxRestarts - 1)
  }

  /// No closed interval of length `period` holds more than `bound` of the times.
  ghost predicate AtMost(g: seq<int>, period: int, bound: int) { forall x :: Within(g, x, period) <= bound }

  lemma SameWindow(g: seq<int>, r: Record, o: Options, now: int)
    requires o.periodMs >= 0 && Window(g, r, o) && r.timestamp <= now <= r.timestamp + o.periodMs && r.count < o.maxRestarts
    ensures Window(g + [now], r.(count := r.count + 1), o)
  {
    var h := g + [now];
    assert h[..|h| - 1] == g;
    forall x ensures Since(h, x) == Since(g, x) + if x <= now then 1 else 0 {}
    forall x ensures Within(h, x, o.periodMs) <= 2 * o.maxRestarts - 1 {
      WithinIsPartOfSince(g, x, o.periodMs);
      assert Within(g, x, o.periodMs) <= 2 * o.maxRestarts - 1;
    }
  }

  lemma NewWindow(g: seq<int>, r: Record, o: Options, now: int)
    requires o.periodMs >= 0 && Window(g, r, o) && now > r.timestamp + o.periodMs
    ensures Window(g + [now], Record(1, now), o)
  {
    var h := g + [now];
    assert h[..|h| - 1] == g;
    forall x ensures Since(h, x) == Since(g, x) + if x <= now then 1 else 0 {}
    forall x ensures Within(h, x, o.periodMs) <= 2 * o.maxRestarts - 1 {
      WithinIsPartOfSince(g, x, o.periodMs);
      assert Within(g, x, o.periodMs) <= 2 * o.maxRestarts - 1;
    }
  }

  lemma FirstWindow(now: int, o: Options)
    requires o.periodMs >= 0 && o.maxRestarts >= 1
    ensures Window([now], Record(1, now), o)
  {
    assert [now][..0] == [];
    forall x ensures Since([now], x) == if x <= now then 1 else 0 {}
    forall x ensures Within([now], x, o.periodMs) <= 1 {}
  }

  lemma {:induction false} KeepsWindow(times: seq<int>, o: Options)
    requires o.periodMs >= 0 && o.maxRestarts >= 1 && Nondecreasing(times) && times != []
    ensures After(times, o).Some? && After(times, o).value.timestamp <= times[|times| - 1]
    ensures Window(Restarts(times, o), After(times, o).value, o)
  {
    var before, now := times[..|times| - 1], times[|times| - 1];
    if before == [] {
      FirstWindow(now, o);
      assert Restarts(times, o) == [now];
    } else {
      KeepsWindow(before, o);
      var g, r := Restarts(before, o), After(before, o).value;
      assert before[|before| - 1] <= now;
      if now - r.timestamp > o.periodMs {
        NewWindow(g, r, o, now);
      } else if r.count < o.maxRestarts {
        SameWindow(g, r, o, now);
      } else {
        assert g + [] == g;
      }
    }
  }

  /// The most restarts that fit into a closed interval of the length of the period.
  function Bound(o: Options): int {
    if o.maxRestarts < 1 || o.periodMs < 0 then 0
    else if o.periodMs == 0 then o.maxRestarts
    else 2 * o.maxRestarts - 1
  }

  /// However crashes are timed, no closed interval of the length of the period holds more restarts than that.
  lemma {:induction false} RestartsAreBounded(times: seq<int>, o: Options)
    requires Nondecreasing(times)
    ensures AtMost(Restarts(times, o), o.periodMs, Bound(o))
  {
    if o.maxRestarts < 1 {
      NoBudget(times, o);
      forall x ensures Within([], x, o.periodMs) <= 0 {}
    } else if o.periodMs < 0 {
      forall x ensures Within(Restarts(times, o), x, o.periodMs) <= 0 { NothingWithin(Restarts(times, o), x, o.periodMs); }
    } else if times == [] {
      forall x ensures Within([], x, o.periodMs) <= 0 {}
    } else if o.periodMs == 0 {
      OneInstant(times, o);
    } else {
      KeepsWindow(times, o);
    }
  }

  lemma {:induction false} NothingWithin(ts: seq<int>, from: int, length: int)
    requires length < 0
    ensures Within(ts, from, length) == 0
  {
    if ts != [] { NothingWithin(ts[..|ts| - 1], from, length); }
  }

  /// With a period of 0, a window is one instant.
  lemma {:induction false} OneInstant(times: seq<int>, o: Options)
    requires o.periodMs == 0 && o.maxRestarts >= 1 && Nondecreasing(times)
    ensures AtMost(Restarts(times, o), 0, o.maxRestarts)
  {
    if times == [] {
      forall x ensures Within([], x, 0) <= 0 {}
    } else {
      var before, now := times[..|times| - 1], times[|times| - 1];
      var g := Restarts(before, o);
      OneInstant(before, o);
      if before == [] {
        assert Restarts(times, o) == [now] && [now][..0] == [];
      } else if Granted(After(before, o), now, o) {
        KeepsWindow(before, o);
        assert before[|before| - 1] <= now;
        assert Since(g, now) < o.maxRestarts;
        WithinIsPartOfSince(g, now, 0);
        OneMoreInstant(g, now, o.maxRestarts);
      } else {
        assert g + [] == g;
      }
    }
  }

  lemma OneMoreInstant(g: seq<int>, now: int, bound: int)
    requires AtMost(g, 0, bound) && Within(g, now, 0) < bound
    ensures AtMost(g + [now], 0, bound)
  {
    assert (g + [now])[..|g|] == g;
    forall x ensures Within(g + [now], x, 0) <= bound { assert Within(g, x, 0) <= bound; }
  }

  lemma {:induction false} NoBudget(times: seq<int>, o: Options)
    requires o.maxRestarts < 1
    ensures Restarts(times, o) == [] && (After(times, o).Some? ==> After(times, o).value.count >= 0)
  {
    if times != [] { NoBudget(times[..|times| - 1], o); }
  }

  // ---------------------------------------------------------------------------------------------
  // The bound is met

  function Times(t: int, n: nat): (s: seq<int>)
    ensures |s| == n && forall i :: 0 <= i < n ==> s[i] == t
  {
    if n == 0 then [] else Times(t, n - 1) + [t]
  }

  /// One crash, a whole budget of crashes less one at the end of its period, and a budget just after.
  function Burst(o: Options): seq<int>
    requires o.maxRestarts >= 1
  {
    [0] + Times(o.periodMs, o.maxRestarts - 1) + Times(o.periodMs + 1, o.maxRestarts)
  }

  lemma OneMore(ts: seq<int>, now: int, o: Options)
    ensures Restarts(ts + [now], o) == Restarts(ts, o) + (if Granted(After(ts, o), now, o) then [now] else [])
    ensures After(ts + [now], o) == Next(After(ts, o), now, o)
  {
    assert (ts + [now])[..|ts|] == ts;
  }

  lemma OneMoreWithin(ts: seq<int>, t: int, from: int, length: int)
    requires from <= t <= from + length
    ensures Within(ts + [t], from, length) == Within(ts, from, length) + 1
  {
    assert (ts + [t])[..|ts|] == ts;
  }

  lemma Longer(before: seq<int>, t: int, n: nat)
    ensures before + Times(t, 0) == before && before + Times(t, n + 1) == (before + Times(t, n)) + [t]
  {
  }

  /// While budget and period last, every crash at `t` is granted a restart.
  lemma {:induction false} AllGranted(before: seq<int>, t: int, n: nat, o: Options)
    requires 0 <= o.periodMs
    requires n > 0 ==> Current(After(before, o), t, o).count + n <= o.maxRestarts
    ensures Restarts(before + Times(t, n), o) == Restarts(before, o) + Times(t, n)
    ensures After(before + Times(t, n), o) == if n == 0 then After(before, o) else
              Some(Record(Current(After(before, o), t, o).count + n, Current(After(before, o), t, o).timestamp))
    decreases n
  {
    hide Restarts, After, Times;
    if n == 0 {
      Longer(before, t, 0);
      Longer(Restarts(before, o), t, 0);
    } else {
      AllGranted(before, t, n - 1, o);
      Longer(before, t, n - 1);
      Longer(Restarts(before, o), t, n - 1);
      var ts := before + Times(t, n - 1);
      OneMore(ts, t, o);
      assert Current(After(ts, o), t, o).count == Current(After(before, o), t, o).count + n - 1;
    }
  }

  lemma {:induction false} WithinTimes(before: seq<int>, t: int, n: nat, from: int, length: int)
    requires from <= t <= from + length
    ensures Within(before + Times(t, n), from, length) == Within(before, from, length) + n
    decreases n
  {
    if n == 0 {
      Longer(before, t, 0);
    } else {
      WithinTimes(before, t, n - 1, from, length);
      Longer(before, t, n - 1);
      OneMoreWithin(before + Times(t, n - 1), t, from, length);
    }
  }

  lemma FirstGrant(o: Options)
    requires o.maxRestarts >= 1 && o.periodMs >= 1
    ensures Restarts([0], o) == [0] && After([0], o) == Some(Record(1, 0))
  {
    assert [0][..0] == [];
  }

  lemma BurstIsGranted(o: Options)
    requires o.maxRestarts >= 1 && o.periodMs >= 1
    ensures Restarts(Burst(o), o) == Burst(o)
  {
    hide Restarts, After, Times;
    var m, p := o.maxRestarts, o.periodMs;
    FirstGrant(o);
    AllGranted([0], p, m - 1, o);
    var two := [0] + Times(p, m - 1);
    assert After(two, o) == Some(Record(m, 0));
    assert Current(After(two, o), p + 1, o) == Record(0, p + 1);
    AllGranted(two, p + 1, m, o);
  }

  lemma BurstIsOrdered(o: Options)
    requires o.maxRestarts >= 1 && o.periodMs >= 1
    ensures Nondecreasing(Burst(o))
  {
    hide Times;
    var b, m := Burst(o), o.maxRestarts;
    forall i | 0 <= i < |b| ensures b[i] == if i == 0 then 0 else if i < m then o.periodMs else o.periodMs + 1 {}
  }

  lemma BurstMeetsBound(o: Options)
    requires o.maxRestarts >= 1 && o.periodMs >= 1
    ensures Nondecreasing(Burst(o))
    ensures Within(Restarts(Burst(o), o), 1, o.periodMs) == 2 * o.maxRestarts - 1
  {
    hide Times, Restarts, Nondecreasing;
    BurstIsOrdered(o);
    BurstIsGranted(o);
    WithinTimes([0], o.periodMs, o.maxRestarts - 1, 1, o.periodMs);
    WithinTimes([0] + Times(o.periodMs, o.maxRestarts - 1), o.periodMs + 1, o.maxRestarts, 1, o.periodMs);
    assert [0][..0] == [];
  }

  lemma InstantMeetsBound(o: Options)
    requires o.maxRestarts >= 1 && o.periodMs == 0
    ensures Nondecreasing(Times(0, o.maxRestarts))
    ensures Within(Restarts(Times(0, o.maxRestarts), o), 0, 0) == o.maxRestarts
  {
    assert After([], o) == None && Restarts([], o) == [] && Within([], 0, 0) == 0;
    hide After, Restarts, Times, Within;
    assert [] + Times(0, o.maxRestarts) == Times(0, o.maxRestarts);
    AllGranted([], 0, o.maxRestarts, o);
    WithinTimes([], 0, o.maxRestarts, 0, 0);
  }

  /// For every budget and period, zero and negative ones included, there are crash times that meet the bound.
  lemma BoundIsMet(o: Options) returns (times: seq<int>, from: int)
    ensures Nondecreasing(times) && Within(Restarts(times, o), from, o.periodMs) == Bound(o)
  {
    if o.maxRestarts < 1 || o.periodMs < 0 {
      times, from := [], 0;
    } else if o.periodMs == 0 {
      times, from := Times(0, o.maxRestarts), 0;
      InstantMeetsBound(o);
    } else {
      times, from := Burst(o), 1;
      BurstMeetsBound(o);
    }
  }

  ghost predicate AlwaysAtMost(o: Options, bound: int) {
    forall times :: Nondecreasing(times) ==> AtMost(Restarts(times, o), o.periodMs, bound)
  }

  /// The bound is exact: a number limits the restarts in every interval of the length of the period, however crashes
  /// are timed, if and only if it is not below the bound.
  lemma BoundIsExact(o: Options, bound: int)
    ensures AlwaysAtMost(o, bound) <==> bound >= Bound(o)
  {
    if bound >= Bound(o) {
      forall times | Nondecreasing(times) ensures AtMost(Restarts(times, o), o.periodMs, bound) {
        RestartsAreBounded(times, o);
      }
    } else {
      var times, from := BoundIsMet(o);
      assert Within(Restarts(times, o), from, o.periodMs) > bound;
      assert !AtMost(Restarts(times, o), o.periodMs, bound);
    }
  }

  /// The limit that the options are documented to set holds exactly for budgets of at most one restart, and for periods
  /// of no length.
  lemma DocumentedLimitIff(o: Options)
    ensures AlwaysAtMost(o, o.maxRestarts) <==> 0 <= o.maxRestarts && (o.maxRestarts <= 1 || o.periodMs <= 0)
  {
    BoundIsExact(o, o.maxRestarts);
  }
}
