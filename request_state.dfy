/**
 * The per-process request record of the memory usage report and the
 * aggregates it feeds: the pure transitions that `extract_pid_from_line`,
 * `record_action`, `record_memory_usage` and `complete_entry` apply to one
 * process's record, and the offence bookkeeping of `complete_entry`.
 */
module RequestState {
  import opened Wrappers

  /** A memory reading in bytes, or the source's `-1` "unknown" sentinel. */
  datatype Reading = Unknown | Known(bytes: nat)

  /** One process's in-flight request: the hash stored under `pids[pid]`. */
  datatype PidState = PidState(
    buffer: seq<string>,
    last: Reading,
    current: Reading,
    action: string,
    requestFinished: bool)

  /** The record a process gets on first sighting. */
  const Fresh := PidState([], Unknown, Unknown, "", true)

  /** A `MemoryOinkedRequest`: action, header date, the request's lines, memory growth. */
  datatype Offence = Offence(action: string, date: string, lines: seq<string>, delta: int)

  /** `@bad_actions`, `@bad_actions_averaged` and `@bad_requests`. */
  datatype Aggregates = Aggregates(
    badActions: map<string, nat>,
    badActionsAveraged: map<string, seq<int>>,
    badRequests: seq<Offence>)

  const NoOffences := Aggregates(map[], map[], [])

  /** A process's record after a tagged line is appended to its buffer. */
  function Seen(pids: map<string, PidState>, pid: string, line: string): PidState
  {
    var p := if pid in pids then pids[pid] else Fresh;
    p.(buffer := p.buffer + [line])
  }

  /** `record_action`: an unfinished request voids the baseline; the new request opens. */
  function StartAction(p: PidState, action: string): PidState
  {
    p.(last := if p.requestFinished then p.last else Unknown,
       action := action,
       requestFinished := false)
  }

  /** `record_memory_usage` */
  function Sample(p: PidState, reading: nat): PidState
  {
    p.(current := Known(reading))
  }

  /** The memory growth of the request, when both readings are known. */
  function Delta(p: PidState): Option<int>
  {
    if p.current.Known? && p.last.Known? then Some(p.current.bytes - p.last.bytes) else None
  }

  /** Whether completing the request records an offence. */
  predicate Offends(p: PidState, threshold: int)
  {
    Delta(p).Some? && Delta(p).value > threshold
  }

  /** The reset at the end of `complete_entry`. */
  function Close(p: PidState): PidState
  {
    p.(requestFinished := true, buffer := [], last := p.current, current := Unknown)
  }

  /** `h[key] ||= 0; h[key] += 1` */
  function Bump(counts: map<string, nat>, key: string): map<string, nat>
  {
    counts[key := (if key in counts then counts[key] else 0) + 1]
  }

  /** `h[key] ||= []; h[key] << delta` */
  function Extend(series: map<string, seq<int>>, key: string, delta: int): map<string, seq<int>>
  {
    series[key := (if key in series then series[key] else []) + [delta]]
  }

  /** The aggregates after `complete_entry` has judged the request `p`. */
  function Judge(agg: Aggregates, threshold: int, p: PidState, date: string): Aggregates
  {
    if Offends(p, threshold) then
      var delta := Delta(p).value;
      Aggregates(
        Bump(agg.badActions, p.action),
        Extend(agg.badActionsAveraged, p.action, delta),
        agg.badRequests + [Offence(p.action, date, p.buffer, delta)])
    else agg
  }

  /**
   * `complete_entry` on the record of process `q` once the completion `line`
   * has been buffered: the record is reset with the current reading as the new
   * baseline; an offence is recorded exactly when both readings are known and
   * their difference strictly exceeds the threshold, carrying the action, the
   * date, the buffered lines and the difference, bumping the action's counter
   * and extending its series; otherwise the aggregates are untouched.
   */
  lemma CloseVerdict(pids: map<string, PidState>, agg: Aggregates, threshold: int,
                     q: string, line: string, date: string)
    ensures
      var before := if q in pids then pids[q] else Fresh;
      var p := Seen(pids, q, line);
      var after := pids[q := Close(p)];
      var judged := Judge(agg, threshold, p, date);
      var offends := before.current.Known? && before.last.Known?
                     && before.current.bytes - before.last.bytes > threshold;
      && q in after
      && after[q] == PidState([], before.current, Unknown, before.action, true)
      && (offends ==>
            var delta := before.current.bytes - before.last.bytes;
            var a := before.action;
            && judged.badRequests == agg.badRequests + [Offence(a, date, before.buffer + [line], delta)]
            && judged.badActions
               == agg.badActions[a := (if a in agg.badActions then agg.badActions[a] else 0) + 1]
            && judged.badActionsAveraged
               == agg.badActionsAveraged[a := (if a in agg.badActionsAveraged
                                               then agg.badActionsAveraged[a] else []) + [delta]])
      && (!offends ==> judged == agg)
  {
    var before := if q in pids then pids[q] else Fresh;
    var p := Seen(pids, q, line);
    assert p == before.(buffer := before.buffer + [line]);
  }

  /** The deltas of the offences recorded for `action`, in the order they were recorded. */
  function DeltasOf(reqs: seq<Offence>, action: string): seq<int>
  {
    if reqs == [] then []
    else
      var o := reqs[|reqs| - 1];
      DeltasOf(reqs[..|reqs| - 1], action) + (if o.action == action then [o.delta] else [])
  }

  /**
   * The aggregates agree with each other: `badActionsAveraged[a]` is exactly the
   * series of deltas of the offences recorded for `a`, `badActions[a]` is its
   * length, both maps have the same keys, an action without offences has no key,
   * and every recorded offence exceeded the threshold.
   */
  ghost predicate Consistent(agg: Aggregates, threshold: int)
  {
    && agg.badActions.Keys == agg.badActionsAveraged.Keys
    && (forall a :: a in agg.badActionsAveraged ==>
          agg.badActionsAveraged[a] == DeltasOf(agg.badRequests, a)
          && agg.badActions[a] == |agg.badActionsAveraged[a]|)
    && (forall a :: a !in agg.badActionsAveraged ==> DeltasOf(agg.badRequests, a) == [])
    && (forall i :: 0 <= i < |agg.badRequests| ==> agg.badRequests[i].delta > threshold)
  }

  /** Recording one more offence extends exactly that action's delta series. */
  lemma DeltasOfAppend(reqs: seq<Offence>, o: Offence, action: string)
    ensures DeltasOf(reqs + [o], action)
         == DeltasOf(reqs, action) + (if o.action == action then [o.delta] else [])
  {
    assert (reqs + [o])[..|reqs|] == reqs;
  }

  /** Judging a request keeps the aggregates consistent. */
  lemma JudgeKeepsConsistent(agg: Aggregates, threshold: int, p: PidState, date: string)
    requires Consistent(agg, threshold)
    ensures Consistent(Judge(agg, threshold, p, date), threshold)
  {
    if Offends(p, threshold) {
      var o := Offence(p.action, date, p.buffer, Delta(p).value);
      var next := Judge(agg, threshold, p, date);
      assert next == Aggregates(Bump(agg.badActions, o.action), Extend(agg.badActionsAveraged, o.action, o.delta),
                                agg.badRequests + [o]);
      forall a | a in next.badActionsAveraged
        ensures next.badActionsAveraged[a] == DeltasOf(next.badRequests, a)
        ensures next.badActions[a] == |next.badActionsAveraged[a]|
      {
        DeltasOfAppend(agg.badRequests, o, a);
      }
      forall a | a !in next.badActionsAveraged ensures DeltasOf(next.badRequests, a) == [] {
        DeltasOfAppend(agg.badRequests, o, a);
      }
      forall i | 0 <= i < |next.badRequests| ensures next.badRequests[i].delta > threshold {
        if i < |agg.badRequests| {
          assert next.badRequests[i] == agg.badRequests[i];
        }
      }
    }
  }

  /** The empty aggregates of a new report are consistent. */
  lemma NoOffencesConsistent(threshold: int)
    ensures Consistent(NoOffences, threshold)
  {
  }

  /**
   * The record of process `q` after an action line, a memory line and a
   * completion line, each buffered as it is seen, starting from record `p`.
   */
  function Cycle(p: PidState, q: string, a: string, m: string, c: string, action: string, reading: nat): PidState
  {
    var started := StartAction(Seen(map[q := p], q, a), action);
    var sampled := Sample(Seen(map[q := started], q, m), reading);
    Seen(map[q := sampled], q, c)
  }

  /**
   * Before its completion is judged, a cycle has buffered its three lines after
   * whatever the record held, opened its action, sampled its reading, and kept
   * the baseline only if the previous request had finished.
   */
  lemma CycleRecord(p: PidState, q: string, a: string, m: string, c: string, action: string, reading: nat)
    ensures Cycle(p, q, a, m, c, action, reading)
         == PidState(p.buffer + [a, m, c], if p.requestFinished then p.last else Unknown, Known(reading), action, false)
  {
    assert p.buffer + [a] + [m] + [c] == p.buffer + [a, m, c];
  }

  /**
   * Two request cycles of process `q` under a threshold of 1000 bytes: the
   * first completion has no baseline and records nothing; the second grows
   * from 1000 to 5000 bytes and records one offence of 4000 bytes for its
   * action, carrying exactly the three lines of the second cycle.
   */
  lemma TwoCycles(q: string, date: string, a1: string, m1: string, c1: string, a2: string, m2: string, c2: string)
    ensures
      var first := Cycle(Fresh, q, a1, m1, c1, "Foo#bar", 1000);
      var second := Cycle(Close(first), q, a2, m2, c2, "Foo#bar", 5000);
      && Judge(NoOffences, 1000, first, date) == NoOffences
      && Judge(NoOffences, 1000, second, date)
         == Aggregates(map["Foo#bar" := 1], map["Foo#bar" := [4000]], [Offence("Foo#bar", date, [a2, m2, c2], 4000)])
  {
    var first := Cycle(Fresh, q, a1, m1, c1, "Foo#bar", 1000);
    CycleRecord(Fresh, q, a1, m1, c1, "Foo#bar", 1000);
    assert first.last == Unknown;
    var second := Cycle(Close(first), q, a2, m2, c2, "Foo#bar", 5000);
    CycleRecord(Close(first), q, a2, m2, c2, "Foo#bar", 5000);
    assert second == PidState([a2, m2, c2], Known(1000), Known(5000), "Foo#bar", false);
    assert Delta(second) == Some(4000);
    assert Bump(map[], "Foo#bar") == map["Foo#bar" := 1];
    assert [] + [4000] == [4000];
    assert Extend(map[], "Foo#bar", 4000) == map["Foo#bar" := [4000]];
  }

  /**
   * With a non-negative threshold, a request whose memory did not grow is never
   * an offence, however much it shrank.
   */
  lemma ShrinkNeverOffends(p: PidState, threshold: int)
    requires threshold >= 0
    requires p.current.Known? && p.last.Known? && p.current.bytes <= p.last.bytes
    ensures !Offends(p, threshold)
  {
  }
}
