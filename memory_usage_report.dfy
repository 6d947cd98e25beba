/**
 * `Oink::Reports::MemoryUsageReport`: the report object whose `print` replays
 * the log inputs line by line, keeping one request record per process in
 * `@pids` and recording memory offences in `@bad_actions`,
 * `@bad_actions_averaged` and `@bad_requests`. Each method updates those fields
 * in place as the Ruby method of the same name does, and is proved to follow
 * the pure replay in `Replay`.
 */
module MemoryUsageReport {
  import opened Wrappers
  import opened LineClassifier
  import opened RequestState
  import opened Replay

  /**
   * How `print` ends: having parsed every line, with the number of completion
   * lines it counted, or by raising `NoMethodError` at a marker line that has
   * no process tag.
   */
  datatype PrintResult = Parsed(entries: nat) | NoMethodError

  class Report {
    /** `@inputs`: the log texts to replay. */
    const inputs: seq<string>
    /** `@threshold` and the header regex. */
    const cfg: Config
    /** `@pids` */
    var pids: map<string, PidState>
    /** `@bad_actions` */
    var badActions: map<string, nat>
    /** `@bad_actions_averaged` */
    var badActionsAveraged: map<string, seq<int>>
    /** `@bad_requests`, in the order the offences were pushed. */
    var badRequests: seq<Offence>

    /** The report's state as a value. */
    function Snapshot(): State
      reads this
    {
      State(pids, Aggregates(badActions, badActionsAveraged, badRequests))
    }

    /** A report with no process seen and no offence recorded. */
    constructor (inputs: seq<string>, threshold: int, hodel: string -> Option<string>)
      ensures this.inputs == inputs && cfg.threshold == threshold && cfg.hodel == hodel
      ensures Snapshot() == Initial
      ensures Valid(cfg, Snapshot())
    {
      this.inputs := inputs;
      cfg := Config(threshold, hodel);
      pids := map[];
      badActions := map[];
      badActionsAveraged := map[];
      badRequests := [];
    }

    /**
     * `extract_pid_from_line`: the line's process id, if it has a
     * `rails[<digits>]` tag. A process seen for the first time gets an empty
     * buffer, two unknown readings, an empty action and a finished request;
     * either way the line is appended to its buffer and nothing else changes.
     */
    method ExtractPidFromLine(line: string) returns (pid: Option<string>)
      modifies this`pids
      ensures pid == ExtractPid(line)
      ensures pid.None? ==> pids == old(pids)
      ensures pid.Some? ==> pids == old(pids)[pid.value := Seen(old(pids), pid.value, line)]
      ensures pid.Some? && pid.value !in old(pids) ==>
                pids[pid.value] == PidState([line], Unknown, Unknown, "", true)
      ensures pid.Some? && pid.value in old(pids) ==>
                pids[pid.value] == old(pids[pid.value]).(buffer := old(pids[pid.value].buffer) + [line])
    {
      pid := ExtractPid(line);
      if pid.Some? {
        var key := pid.value;
        if key !in pids {
          pids := pids[key := Fresh];
        }
        pids := pids[key := pids[key].(buffer := pids[key].buffer + [line])];
      }
    }

    /**
     * `record_action`: if the process's request is still open its baseline
     * becomes unknown, otherwise the baseline stays; the action is set and the
     * request opened. The buffer, the current reading and every other process
     * are untouched.
     */
    method RecordAction(action: string, pid: string)
      requires pid in pids
      modifies this`pids
      ensures pids == old(pids)[pid := StartAction(old(pids[pid]), action)]
      ensures pids[pid].last == (if old(pids[pid].requestFinished) then old(pids[pid].last) else Unknown)
      ensures pids[pid].action == action && !pids[pid].requestFinished
      ensures pids[pid].buffer == old(pids[pid].buffer) && pids[pid].current == old(pids[pid].current)
    {
      if !pids[pid].requestFinished {
        pids := pids[pid := pids[pid].(last := Unknown)];
      }
      pids := pids[pid := pids[pid].(action := action)];
      pids := pids[pid := pids[pid].(requestFinished := false)];
    }

    /**
     * `record_memory_usage`: the process's current reading is overwritten, so
     * the last sample before completion wins; nothing else changes.
     */
    method RecordMemoryUsage(reading: nat, pid: string)
      requires pid in pids
      modifies this`pids
      ensures pids == old(pids)[pid := Sample(old(pids[pid]), reading)]
      ensures pids[pid] == old(pids[pid]).(current := Known(reading))
    {
      pids := pids[pid := pids[pid].(current := Known(reading))];
    }

    /**
     * `complete_entry` for the header-valid line `line`: the request is judged
     * and the process's record reset. When both readings are known and the
     * current one exceeds the baseline by strictly more than the threshold,
     * the action's counter goes up by one (from zero if absent), the delta is
     * appended to its series, and one offence carrying the action, the header
     * date, the buffer and the delta is pushed; otherwise the aggregates stay
     * as they were. Afterwards the request is finished, the buffer empty, the
     * baseline is the former current reading (known or not) and the current
     * reading unknown.
     */
    method CompleteEntry(line: string, pid: string)
      requires pid in pids && cfg.hodel(line).Some?
      modifies this
      ensures pids == old(pids)[pid := Close(old(pids[pid]))]
      ensures Aggregates(badActions, badActionsAveraged, badRequests)
           == Judge(old(Snapshot().agg), cfg.threshold, old(pids[pid]), cfg.hodel(line).value)
    {
      ghost var before := pids[pid];
      var entry := pids[pid].(requestFinished := true);

      var current := entry.current;
      var last := entry.last;
      var buffer := entry.buffer;

      if current.Known? && last.Known? {
        var diff := current.bytes - last.bytes;
        if diff > cfg.threshold {
          var action := entry.action;
          if action !in badActions {
            badActions := badActions[action := 0];
          }
          badActions := badActions[action := badActions[action] + 1];
          assert badActions == Bump(old(badActions), action);
          var date := cfg.hodel(line).value;
          badRequests := badRequests + [Offence(action, date, buffer, diff)];
          if action !in badActionsAveraged {
            badActionsAveraged := badActionsAveraged[action := []];
          }
          badActionsAveraged := badActionsAveraged[action := badActionsAveraged[action] + [diff]];
          assert badActionsAveraged == Extend(old(badActionsAveraged), action, diff);
        }
      }

      entry := entry.(buffer := []);
      entry := entry.(last := current);
      entry := entry.(current := Unknown);
      assert entry == Close(before);
      pids := pids[pid := entry];
    }

    /**
     * One iteration of `print`'s `each_line` block: trim the line, skip it
     * unless it passes the header check, attribute it to its process, then
     * dispatch on the first marker of action, memory usage and completion.
     * A marker line without a process tag is where the source raises; it is
     * reported as `NilPid` with nothing changed.
     */
    method Step(raw: string) returns (status: Status)
      modifies this
      ensures Stepped(Snapshot(), status) == StepSpec(cfg, old(Snapshot()), raw)
      ensures status.Tagged? || status.NilPid? ==> status.marker == Classify(Strip(raw))
      ensures (status.Tagged? || status.NilPid?) && status.marker == CompleteMark <==> CountsEntry(cfg, raw)
    {
      ghost var st := Snapshot();
      var line := Strip(raw);
      if cfg.hodel(line).None? {
        assert StepSpec(cfg, st, raw) == Stepped(st, NotHodel);
        return NotHodel;
      }
      var pid := ExtractPidFromLine(line);
      var marker := Classify(line);
      if pid.None? {
        status := if marker == NoMarker then Untagged else NilPid(marker);
        assert StepSpec(cfg, st, raw) == Stepped(st, status);
        return;
      }
      ghost var p := Seen(st.pids, pid.value, line);
      assert Snapshot() == State(st.pids[pid.value := p], st.agg);
      status := Tagged(pid.value, marker);
      match marker {
        case ActionMark(action) =>
          RecordAction(action, pid.value);
          ReplaceTwice(st.pids, pid.value, p, StartAction(p, action));
          assert Snapshot() == State(st.pids[pid.value := StartAction(p, action)], st.agg);
          assert StepSpec(cfg, st, raw) == Stepped(State(st.pids[pid.value := StartAction(p, action)], st.agg), status);
        case MemoryMark(reading) =>
          RecordMemoryUsage(reading, pid.value);
          ReplaceTwice(st.pids, pid.value, p, Sample(p, reading));
          assert Snapshot() == State(st.pids[pid.value := Sample(p, reading)], st.agg);
          assert StepSpec(cfg, st, raw) == Stepped(State(st.pids[pid.value := Sample(p, reading)], st.agg), status);
        case CompleteMark =>
          CompleteEntry(line, pid.value);
          ReplaceTwice(st.pids, pid.value, p, Close(p));
          assert Snapshot().agg == Judge(st.agg, cfg.threshold, p, cfg.hodel(line).value);
          assert StepSpec(cfg, st, raw) == Stepped(Snapshot(), status);
        case NoMarker =>
          assert StepSpec(cfg, st, raw) == Stepped(Snapshot(), status);
      }
    }

    /**
     * `print`'s inner loop over the lines of one input: each line is stepped in
     * order, and the loop stops at the first line that raises. The new state,
     * the number of counted completions and whether it raised are those of
     * `RunLines` over these lines.
     */
    method ReadLines(lines: seq<string>) returns (entries: nat, raised: bool)
      modifies this
      ensures RunLines(cfg, old(Snapshot()), lines) == Outcome(Snapshot(), entries, raised)
    {
      ghost var start := Snapshot();
      entries := 0;
      var j := 0;
      while j < |lines|
        invariant 0 <= j <= |lines|
        invariant RunLines(cfg, start, lines[..j]) == Outcome(Snapshot(), entries, false)
      {
        var next := j + 1;
        RunStep(cfg, start, lines, j, next, Snapshot(), entries);
        var status := Step(lines[j]);
        if (status.Tagged? || status.NilPid?) && status.marker == CompleteMark {
          entries := entries + 1;
        }
        if status.NilPid? {
          RunPrefixRaised(cfg, start, lines, next);
          return entries, true;
        }
        j := next;
      }
      assert lines[..j] == lines;
      raised := false;
    }

    /**
     * `print`'s replay: every line of every input, input after input, with
     * process records carried across inputs. The new state and the result are
     * those of `RunLines` over all the lines; when it finishes, the count is
     * the number of header-valid completion lines; and the report's invariant
     * is kept.
     */
    method Print() returns (result: PrintResult)
      modifies this
      ensures
        var o := RunLines(cfg, old(Snapshot()), AllLines(inputs));
        Snapshot() == o.st && result == (if o.raised then NoMethodError else Parsed(o.entries))
      ensures result.Parsed? ==> result.entries == CountCompletions(cfg, AllLines(inputs))
      ensures Valid(cfg, old(Snapshot())) ==> Valid(cfg, Snapshot())
    {
      ghost var start := Snapshot();
      var count := 0;
      var i := 0;
      while i < |inputs|
        invariant 0 <= i <= |inputs|
        invariant RunLines(cfg, start, AllLines(inputs[..i])) == Outcome(Snapshot(), count, false)
      {
        ghost var done := AllLines(inputs[..i]);
        var lines := SplitLines(inputs[i]);
        var entries, raised := ReadLines(lines);
        RunCompose(cfg, start, done, lines);
        AllLinesNext(inputs, i);
        count := count + entries;
        if raised {
          RunStopsEarly(cfg, start, inputs, i + 1);
          if Valid(cfg, start) {
            RunKeepsValid(cfg, start, AllLines(inputs));
          }
          return NoMethodError;
        }
        i := i + 1;
      }
      assert inputs[..i] == inputs;
      result := Parsed(count);
      EntryCount(cfg, start, AllLines(inputs));
      if Valid(cfg, start) {
        RunKeepsValid(cfg, start, AllLines(inputs));
      }
    }
  }

  /** Replacing a map entry twice keeps only the second value. */
  lemma ReplaceTwice<K, V>(m: map<K, V>, k: K, a: V, b: V)
    ensures m[k := a][k := b] == m[k := b]
  {
  }

  /** Once the lines of the first `k` inputs have raised, the remaining inputs change nothing. */
  lemma RunStopsEarly(cfg: Config, st: State, inputs: seq<string>, k: nat)
    requires k <= |inputs|
    requires RunLines(cfg, st, AllLines(inputs[..k])).raised
    ensures RunLines(cfg, st, AllLines(inputs)) == RunLines(cfg, st, AllLines(inputs[..k]))
  {
    assert inputs == inputs[..k] + inputs[k..];
    AllLinesAppend(inputs[..k], inputs[k..]);
    RunStopsAtRaise(cfg, st, AllLines(inputs[..k]), AllLines(inputs[k..]));
  }

  /** The lines of the first `i + 1` inputs. */
  lemma AllLinesNext(inputs: seq<string>, i: nat)
    requires i < |inputs|
    ensures AllLines(inputs[..i + 1]) == AllLines(inputs[..i]) + SplitLines(inputs[i])
  {
    var upto := inputs[..i + 1];
    assert upto[..|upto| - 1] == inputs[..i] && upto[|upto| - 1] == inputs[i];
  }

}
