/**
 * The whole replay of the memory usage report as pure functions: one line
 * (`StepSpec`, the body of the `each_line` block of `print`) and a sequence of
 * lines (`RunLines`, both nested `each` loops), with the properties the report
 * promises proved about them. The class in `MemoryUsageReport` is proved to
 * follow these functions.
 */
module Replay {
  import opened Wrappers
  import opened LineClassifier
  import opened RequestState

  /**
   * What a report is configured with: `@threshold`, and the header regex
   * `HODEL_LOG_FORMAT_REGEX` as a function of the trimmed line that is `None`
   * when the line does not match and `Some(date)` when it does, `date` being
   * its first capture.
   */
  datatype Config = Config(threshold: int, hodel: string -> Option<string>)

  /** `@pids` together with the aggregates. */
  datatype State = State(pids: map<string, PidState>, agg: Aggregates)

  const Initial := State(map[], NoOffences)

  /**
   * What happened to a line: it failed the header check; it passed but has no
   * process tag and no marker; it was attributed to `pid`; or it has a marker
   * but no process tag, where the source indexes `pids[nil]` and raises
   * `NoMethodError`.
   */
  datatype Status = NotHodel | Untagged | Tagged(pid: string, marker: Marker) | NilPid(marker: Marker)

  datatype Stepped = Stepped(st: State, status: Status)

  /** The record of process `q`, if it has been seen. */
  function Entry(st: State, q: string): Option<PidState>
  {
    if q in st.pids then Some(st.pids[q]) else None
  }

  /** The buffer of process `q`; empty for a process not seen yet. */
  function BufferOf(st: State, q: string): seq<string>
  {
    if Entry(st, q).Some? then Entry(st, q).value.buffer else []
  }

  /** The process a raw line is attributed to: a header-valid line's `rails[...]` tag. */
  function TaggedPid(cfg: Config, raw: string): Option<string>
  {
    var line := Strip(raw);
    if cfg.hodel(line).Some? then ExtractPid(line) else None
  }

  /** A header-valid line carrying a marker but no process tag. */
  predicate Raises(cfg: Config, raw: string)
  {
    var line := Strip(raw);
    cfg.hodel(line).Some? && ExtractPid(line).None? && Classify(line) != NoMarker
  }

  /** A header-valid line that `print` counts in `oink_entry_count`. */
  predicate CountsEntry(cfg: Config, raw: string)
  {
    var line := Strip(raw);
    cfg.hodel(line).Some? && Classify(line) == CompleteMark
  }

  /** A completion line attributed to process `q`. */
  predicate IsCompletionOf(cfg: Config, raw: string, q: string)
  {
    TaggedPid(cfg, raw) == Some(q) && Classify(Strip(raw)) == CompleteMark
  }

  /**
   * One iteration of the `each_line` block. A line failing the header check
   * changes nothing; no process other than the line's own is touched; the
   * line's process is known afterwards; the line raises exactly when it has a
   * marker and no process tag, and then nothing has changed; and only a
   * completion line can change the aggregates.
   */
  function StepSpec(cfg: Config, st: State, raw: string): (r: Stepped)
    ensures cfg.hodel(Strip(raw)).None? ==> r == Stepped(st, NotHodel)
    ensures forall q :: Some(q) != TaggedPid(cfg, raw) ==> Entry(r.st, q) == Entry(st, q)
    ensures TaggedPid(cfg, raw).Some? ==> TaggedPid(cfg, raw).value in r.st.pids
    ensures r.status.NilPid? <==> Raises(cfg, raw)
    ensures r.status.NilPid? ==> r.st == st
    ensures r.st.agg != st.agg ==> TaggedPid(cfg, raw).Some? && Classify(Strip(raw)) == CompleteMark
  {
    var line := Strip(raw);
    match cfg.hodel(line)
    case None => Stepped(st, NotHodel)
    case Some(date) =>
      var marker := Classify(line);
      match ExtractPid(line)
      case None => if marker == NoMarker then Stepped(st, Untagged) else Stepped(st, NilPid(marker))
      case Some(pid) => Stepped(Dispatch(cfg, st, pid, line, marker, date), Tagged(pid, marker))
  }

  /**
   * The `if`/`elsif` dispatch on a line attributed to `pid`: the line is
   * buffered, then the marker's handler runs on `pid`'s record. No other
   * process is touched, `pid` is known afterwards, and only a completion can
   * change the aggregates.
   */
  function Dispatch(cfg: Config, st: State, pid: string, line: string, marker: Marker, date: string): (next: State)
    ensures forall q :: q != pid ==> Entry(next, q) == Entry(st, q)
    ensures pid in next.pids
    ensures next.agg != st.agg ==> marker == CompleteMark
  {
    var p := Seen(st.pids, pid, line);
    match marker
    case ActionMark(a) => State(st.pids[pid := StartAction(p, a)], st.agg)
    case MemoryMark(n) => State(st.pids[pid := Sample(p, n)], st.agg)
    case CompleteMark => State(st.pids[pid := Close(p)], Judge(st.agg, cfg.threshold, p, date))
    case NoMarker => State(st.pids[pid := p], st.agg)
  }

  /** The state after a sequence of lines, `oink_entry_count`, and whether `print` raised. */
  datatype Outcome = Outcome(st: State, entries: nat, raised: bool)

  /** One more line after `o`; once raised, nothing more happens. */
  function Continue(cfg: Config, o: Outcome, raw: string): Outcome
  {
    if o.raised then o
    else
      var s := StepSpec(cfg, o.st, raw);
      Outcome(s.st, o.entries + (if CountsEntry(cfg, raw) then 1 else 0), s.status.NilPid?)
  }

  /** The lines replayed in order from `st`. */
  function RunLines(cfg: Config, st: State, lines: seq<string>): Outcome
  {
    if lines == [] then Outcome(st, 0, false)
    else Continue(cfg, RunLines(cfg, st, lines[..|lines| - 1]), lines[|lines| - 1])
  }

  /** The lines of all inputs, input after input. */
  function AllLines(inputs: seq<string>): seq<string>
  {
    if inputs == [] then [] else AllLines(inputs[..|inputs| - 1]) + SplitLines(inputs[|inputs| - 1])
  }

  /** The number of lines that `print` counts in `oink_entry_count`. */
  function CountCompletions(cfg: Config, lines: seq<string>): nat
  {
    if lines == [] then 0
    else CountCompletions(cfg, lines[..|lines| - 1]) + (if CountsEntry(cfg, lines[|lines| - 1]) then 1 else 0)
  }

  /**
   * The trimmed lines attributed to process `q`, in order: what its buffer
   * receives. `OnlyTagged` keeps the same lines untrimmed, as a replay input.
   */
  function TaggedLines(cfg: Config, lines: seq<string>, q: string): seq<string>
  {
    if lines == [] then []
    else
      var last := lines[|lines| - 1];
      TaggedLines(cfg, lines[..|lines| - 1], q) + (if TaggedPid(cfg, last) == Some(q) then [Strip(last)] else [])
  }

  /**
   * The raw lines attributed to process `q`, in order: the input that replays
   * only that process. `TaggedLines` is the same selection after trimming.
   */
  function OnlyTagged(cfg: Config, lines: seq<string>, q: string): seq<string>
  {
    if lines == [] then []
    else
      var last := lines[|lines| - 1];
      OnlyTagged(cfg, lines[..|lines| - 1], q) + (if TaggedPid(cfg, last) == Some(q) then [last] else [])
  }

  /** None of the lines raises. */
  ghost predicate NoneRaise(cfg: Config, lines: seq<string>)
  {
    forall i :: 0 <= i < |lines| ==> !Raises(cfg, lines[i])
  }

  /** None of the lines is a completion line of process `q`. */
  ghost predicate NoCompletionOf(cfg: Config, lines: seq<string>, q: string)
  {
    forall i :: 0 <= i < |lines| ==> !IsCompletionOf(cfg, lines[i], q)
  }

  /**
   * The lines of one request: they all belong to one process, the last is that
   * process's completion line, and no earlier one is a completion line.
   */
  ghost predicate IsRequest(cfg: Config, lines: seq<string>)
  {
    && |lines| > 0
    && ExtractPid(lines[|lines| - 1]).Some?
    && Classify(lines[|lines| - 1]) == CompleteMark
    && (forall i :: 0 <= i < |lines| ==>
          cfg.hodel(lines[i]).Some? && ExtractPid(lines[i]) == ExtractPid(lines[|lines| - 1]))
    && (forall i :: 0 <= i < |lines| - 1 ==> Classify(lines[i]) != CompleteMark)
  }

  /** Every buffered line passed the header check, carries its process's tag and is not a completion line. */
  ghost predicate BuffersAttributed(cfg: Config, pids: map<string, PidState>)
  {
    forall q, l :: q in pids && l in pids[q].buffer ==>
      cfg.hodel(l).Some? && ExtractPid(l) == Some(q) && Classify(l) != CompleteMark
  }

  /** Every recorded offence holds the lines of one request. */
  ghost predicate OffencesAreRequests(cfg: Config, reqs: seq<Offence>)
  {
    forall i :: 0 <= i < |reqs| ==> IsRequest(cfg, reqs[i].lines)
  }

  /**
   * The report's invariant: the aggregates are consistent, buffers hold only
   * their own process's lines, and offences hold whole requests.
   */
  ghost predicate Valid(cfg: Config, st: State)
  {
    && Consistent(st.agg, cfg.threshold)
    && BuffersAttributed(cfg, st.pids)
    && OffencesAreRequests(cfg, st.agg.badRequests)
  }

  lemma InitialValid(cfg: Config)
    ensures Valid(cfg, Initial)
  {
  }

  /** Process `q`'s record after a line depends only on its record before. */
  lemma StepLocal(cfg: Config, st1: State, st2: State, raw: string, q: string)
    requires Entry(st1, q) == Entry(st2, q)
    ensures Entry(StepSpec(cfg, st1, raw).st, q) == Entry(StepSpec(cfg, st2, raw).st, q)
  {
  }

  /**
   * A header-valid completion line tagged with process `q` is buffered in
   * `q`'s record, and `complete_entry` then runs on that record with the
   * header's date (what it does is `RequestState.CloseVerdict`).
   */
  lemma CompletionVerdict(cfg: Config, st: State, raw: string, q: string)
    requires IsCompletionOf(cfg, raw, q)
    ensures
      var line := Strip(raw);
      var p := Seen(st.pids, q, line);
      StepSpec(cfg, st, raw)
        == Stepped(State(st.pids[q := Close(p)], Judge(st.agg, cfg.threshold, p, cfg.hodel(line).value)),
                   Tagged(q, CompleteMark))
  {
  }

  /**
   * A header-valid line tagged with process `q` that is not a completion line:
   * it is appended to `q`'s buffer (a first sighting starting from the fresh
   * record); an action line voids the baseline of a request still open, sets
   * the action and opens the request; a memory line overwrites only the
   * current reading; a line without a marker changes nothing else. The
   * aggregates are untouched.
   */
  lemma MarkerEffects(cfg: Config, st: State, raw: string, q: string)
    requires TaggedPid(cfg, raw) == Some(q) && Classify(Strip(raw)) != CompleteMark
    ensures
      var line := Strip(raw);
      var before := if q in st.pids then st.pids[q] else Fresh;
      var r := StepSpec(cfg, st, raw);
      var buffer := before.buffer + [line];
      && r.status == Tagged(q, Classify(line))
      && r.st.agg == st.agg
      && q in r.st.pids
      && (Classify(line).ActionMark? ==>
            r.st.pids[q] == PidState(buffer, if before.requestFinished then before.last else Unknown,
                                     before.current, Classify(line).action, false))
      && (Classify(line).MemoryMark? ==>
            r.st.pids[q] == PidState(buffer, before.last, Known(Classify(line).reading),
                                     before.action, before.requestFinished))
      && (Classify(line) == NoMarker ==> r.st.pids[q] == before.(buffer := buffer))
  {
    var line := Strip(raw);
    var before := if q in st.pids then st.pids[q] else Fresh;
    assert Seen(st.pids, q, line) == before.(buffer := before.buffer + [line]);
  }

  /** One line keeps the invariant. */
  lemma StepKeepsValid(cfg: Config, st: State, raw: string)
    requires Valid(cfg, st)
    ensures Valid(cfg, StepSpec(cfg, st, raw).st)
  {
    var line := Strip(raw);
    if cfg.hodel(line).Some? && ExtractPid(line).Some? {
      if Classify(line) == CompleteMark {
        CompletionKeepsValid(cfg, st, raw);
      } else {
        OtherKeepsValid(cfg, st, raw);
      }
    }
  }

  /** A completion line keeps the invariant. */
  lemma CompletionKeepsValid(cfg: Config, st: State, raw: string)
    requires Valid(cfg, st)
    requires cfg.hodel(Strip(raw)).Some? && ExtractPid(Strip(raw)).Some? && Classify(Strip(raw)) == CompleteMark
    ensures Valid(cfg, StepSpec(cfg, st, raw).st)
  {
    var line := Strip(raw);
    var r := StepSpec(cfg, st, raw);
    var pid := ExtractPid(line).value;
    var p := Seen(st.pids, pid, line);
    var date := cfg.hodel(line).value;
    assert IsCompletionOf(cfg, raw, pid);
    CompletionVerdict(cfg, st, raw, pid);
    JudgeKeepsConsistent(st.agg, cfg.threshold, p, date);
    UpdateKeepsAttributed(cfg, st.pids, pid, Close(p));
    if Offends(p, cfg.threshold) {
      SeenIsRequest(cfg, st.pids, pid, line);
      PushKeepsRequests(cfg, st.agg.badRequests, Offence(p.action, date, p.buffer, Delta(p).value));
    }
  }

  /** Pushing an offence that holds a whole request keeps every offence a whole request. */
  lemma PushKeepsRequests(cfg: Config, reqs: seq<Offence>, o: Offence)
    requires OffencesAreRequests(cfg, reqs) && IsRequest(cfg, o.lines)
    ensures OffencesAreRequests(cfg, reqs + [o])
  {
    forall i | 0 <= i < |reqs + [o]| ensures IsRequest(cfg, (reqs + [o])[i].lines) {
      if i < |reqs| {
        assert (reqs + [o])[i] == reqs[i];
      }
    }
  }

  /** A tagged line that is not a completion line keeps the invariant. */
  lemma OtherKeepsValid(cfg: Config, st: State, raw: string)
    requires Valid(cfg, st)
    requires cfg.hodel(Strip(raw)).Some? && ExtractPid(Strip(raw)).Some? && Classify(Strip(raw)) != CompleteMark
    ensures Valid(cfg, StepSpec(cfg, st, raw).st)
  {
    var line := Strip(raw);
    var r := StepSpec(cfg, st, raw);
    var pid := ExtractPid(line).value;
    var p := Seen(st.pids, pid, line);
    assert r.st.pids == st.pids[pid := r.st.pids[pid]];
    assert r.st.pids[pid].buffer == p.buffer;
    assert r.st.agg == st.agg;
    SeenAttributed(cfg, st.pids, pid, line);
    UpdateKeepsAttributed(cfg, st.pids, pid, r.st.pids[pid]);
  }

  /** Replacing one process's record by one whose buffer holds only its own lines keeps buffers attributed. */
  lemma UpdateKeepsAttributed(cfg: Config, pids: map<string, PidState>, pid: string, x: PidState)
    requires BuffersAttributed(cfg, pids)
    requires forall l :: l in x.buffer ==>
               cfg.hodel(l).Some? && ExtractPid(l) == Some(pid) && Classify(l) != CompleteMark
    ensures BuffersAttributed(cfg, pids[pid := x])
  {
  }

  /** Appending a non-completion line of its own process keeps that buffer attributed. */
  lemma SeenAttributed(cfg: Config, pids: map<string, PidState>, pid: string, line: string)
    requires BuffersAttributed(cfg, pids)
    requires cfg.hodel(line).Some? && ExtractPid(line) == Some(pid) && Classify(line) != CompleteMark
    ensures forall l :: l in Seen(pids, pid, line).buffer ==>
              cfg.hodel(l).Some? && ExtractPid(l) == Some(pid) && Classify(l) != CompleteMark
  {
    var own := (l: string) => cfg.hodel(l).Some? && ExtractPid(l) == Some(pid) && Classify(l) != CompleteMark;
    var old_ := BufferOf(State(pids, NoOffences), pid);
    BufferOwn(cfg, pids, pid, own);
    AllAppend(old_, line, own);
    assert Seen(pids, pid, line).buffer == old_ + [line];
  }

  /** The lines already buffered for `pid` are its own. */
  lemma BufferOwn(cfg: Config, pids: map<string, PidState>, pid: string, own: string -> bool)
    requires BuffersAttributed(cfg, pids)
    requires forall l :: own(l) == (cfg.hodel(l).Some? && ExtractPid(l) == Some(pid) && Classify(l) != CompleteMark)
    ensures forall l :: l in BufferOf(State(pids, NoOffences), pid) ==> own(l)
  {
  }

  /** A property of every element survives appending one more element that has it. */
  lemma AllAppend<T>(xs: seq<T>, x: T, p: T -> bool)
    requires forall y :: y in xs ==> p(y)
    requires p(x)
    ensures forall y :: y in xs + [x] ==> p(y)
  {
  }

  /** The buffer of a process at its completion line holds one request. */
  lemma SeenIsRequest(cfg: Config, pids: map<string, PidState>, pid: string, line: string)
    requires BuffersAttributed(cfg, pids)
    requires cfg.hodel(line).Some? && ExtractPid(line) == Some(pid) && Classify(line) == CompleteMark
    ensures IsRequest(cfg, Seen(pids, pid, line).buffer)
  {
    var b := Seen(pids, pid, line).buffer;
    forall i | 0 <= i < |b| - 1
      ensures cfg.hodel(b[i]).Some? && ExtractPid(b[i]) == Some(pid) && Classify(b[i]) != CompleteMark
    {
      assert b[i] in pids[pid].buffer;
    }
  }

  /** Appending one line to a replay continues it by that line. */
  lemma RunSnoc(cfg: Config, st: State, lines: seq<string>, raw: string)
    ensures RunLines(cfg, st, lines + [raw]) == Continue(cfg, RunLines(cfg, st, lines), raw)
  {
    assert (lines + [raw])[..|lines|] == lines;
  }

  /** One more line of `lines` after a prefix that has not raised is one more step. */
  lemma RunStep(cfg: Config, st: State, lines: seq<string>, j: nat, next: nat, now: State, entries: nat)
    requires next == j + 1 <= |lines|
    requires RunLines(cfg, st, lines[..j]) == Outcome(now, entries, false)
    ensures
      var r := StepSpec(cfg, now, lines[j]);
      RunLines(cfg, st, lines[..next])
        == Outcome(r.st, entries + (if CountsEntry(cfg, lines[j]) then 1 else 0), r.status.NilPid?)
  {
    assert lines[..j + 1] == lines[..j] + [lines[j]];
    RunSnoc(cfg, st, lines[..j], lines[j]);
  }

  /** Once a prefix of `lines` has raised, the rest of `lines` changes nothing. */
  lemma RunPrefixRaised(cfg: Config, st: State, lines: seq<string>, k: nat)
    requires k <= |lines|
    requires RunLines(cfg, st, lines[..k]).raised
    ensures RunLines(cfg, st, lines) == RunLines(cfg, st, lines[..k])
  {
    assert lines[..k] + lines[k..] == lines;
    RunStopsAtRaise(cfg, st, lines[..k], lines[k..]);
  }

  /** Once `print` has raised, later lines change nothing. */
  lemma {:induction false} RunStopsAtRaise(cfg: Config, st: State, xs: seq<string>, ys: seq<string>)
    requires RunLines(cfg, st, xs).raised
    ensures RunLines(cfg, st, xs + ys) == RunLines(cfg, st, xs)
    decreases |ys|
  {
    if ys == [] {
      assert xs + ys == xs;
    } else {
      var init := ys[..|ys| - 1];
      assert xs + ys == (xs + init) + [ys[|ys| - 1]];
      RunSnoc(cfg, st, xs + init, ys[|ys| - 1]);
      RunStopsAtRaise(cfg, st, xs, init);
    }
  }

  /**
   * Replaying `xs` then `ys` is replaying `ys` from the state `xs` left: the
   * process records and aggregates carry over, and the entry counts add up.
   */
  lemma {:induction false} RunCompose(cfg: Config, st: State, xs: seq<string>, ys: seq<string>)
    requires !RunLines(cfg, st, xs).raised
    ensures
      var first := RunLines(cfg, st, xs);
      var second := RunLines(cfg, first.st, ys);
      RunLines(cfg, st, xs + ys) == Outcome(second.st, first.entries + second.entries, second.raised)
    decreases |ys|
  {
    if ys == [] {
      assert xs + ys == xs;
    } else {
      var init := ys[..|ys| - 1];
      var last := ys[|ys| - 1];
      assert xs + ys == (xs + init) + [last];
      RunSnoc(cfg, st, xs + init, last);
      RunCompose(cfg, st, xs, init);
    }
  }

  /** The lines of several inputs are the lines of each, in input order. */
  lemma {:induction false} AllLinesAppend(xs: seq<string>, ys: seq<string>)
    ensures AllLines(xs + ys) == AllLines(xs) + AllLines(ys)
    decreases |ys|
  {
    if ys == [] {
      assert xs + ys == xs;
    } else {
      var init, last := ys[..|ys| - 1], ys[|ys| - 1];
      assert (xs + ys)[..|xs + ys| - 1] == xs + init;
      assert (xs + ys)[|xs + ys| - 1] == last;
      var tail := SplitLines(last);
      calc {
        AllLines(xs + ys);
        AllLines(xs + init) + tail;
        { AllLinesAppend(xs, init); }
        (AllLines(xs) + AllLines(init)) + tail;
        AllLines(xs) + (AllLines(init) + tail);
      }
    }
  }

  /** A replay keeps the invariant. */
  lemma {:induction false} RunKeepsValid(cfg: Config, st: State, lines: seq<string>)
    requires Valid(cfg, st)
    ensures Valid(cfg, RunLines(cfg, st, lines).st)
    decreases |lines|
  {
    if lines != [] {
      var o := RunLines(cfg, st, lines[..|lines| - 1]);
      RunKeepsValid(cfg, st, lines[..|lines| - 1]);
      if !o.raised {
        StepKeepsValid(cfg, o.st, lines[|lines| - 1]);
      }
    }
  }

  /** `oink_entry_count` counts every header-valid completion line. */
  lemma {:induction false} EntryCount(cfg: Config, st: State, lines: seq<string>)
    requires !RunLines(cfg, st, lines).raised
    ensures RunLines(cfg, st, lines).entries == CountCompletions(cfg, lines)
    decreases |lines|
  {
    if lines != [] {
      EntryCount(cfg, st, lines[..|lines| - 1]);
    }
  }

  /** Lines attributed to other processes never change process `q`'s record. */
  lemma {:induction false} RunIsolation(cfg: Config, st: State, lines: seq<string>, q: string)
    requires forall i :: 0 <= i < |lines| ==> TaggedPid(cfg, lines[i]) != Some(q)
    ensures Entry(RunLines(cfg, st, lines).st, q) == Entry(st, q)
    decreases |lines|
  {
    if lines != [] {
      RunIsolation(cfg, st, lines[..|lines| - 1], q);
    }
  }

  /**
   * Process `q`'s record after a replay is what replaying only `q`'s own lines
   * would give: interleaved processes do not interfere.
   */
  lemma {:induction false} RunLocality(cfg: Config, st1: State, st2: State, lines: seq<string>, q: string)
    requires Entry(st1, q) == Entry(st2, q)
    requires NoneRaise(cfg, lines)
    ensures !RunLines(cfg, st1, lines).raised
    ensures !RunLines(cfg, st2, OnlyTagged(cfg, lines, q)).raised
    ensures Entry(RunLines(cfg, st1, lines).st, q)
         == Entry(RunLines(cfg, st2, OnlyTagged(cfg, lines, q)).st, q)
    decreases |lines|
  {
    if lines != [] {
      var init := lines[..|lines| - 1];
      var last := lines[|lines| - 1];
      RunLocality(cfg, st1, st2, init, q);
      var o1 := RunLines(cfg, st1, init);
      var o2 := RunLines(cfg, st2, OnlyTagged(cfg, init, q));
      assert !Raises(cfg, last);
      var s1 := StepSpec(cfg, o1.st, last);
      assert RunLines(cfg, st1, lines) == Continue(cfg, o1, last);
      assert RunLines(cfg, st1, lines).st == s1.st && !s1.status.NilPid?;
      if TaggedPid(cfg, last) == Some(q) {
        assert OnlyTagged(cfg, lines, q) == OnlyTagged(cfg, init, q) + [last];
        RunSnoc(cfg, st2, OnlyTagged(cfg, init, q), last);
        StepLocal(cfg, o1.st, o2.st, last, q);
      } else {
        assert OnlyTagged(cfg, lines, q) == OnlyTagged(cfg, init, q);
        assert Entry(s1.st, q) == Entry(o1.st, q);
      }
    }
  }

  /**
   * Until its next completion line, process `q`'s buffer grows by exactly its
   * own lines, in order.
   */
  lemma {:induction false} BufferSinceCompletion(cfg: Config, st: State, lines: seq<string>, q: string)
    requires NoCompletionOf(cfg, lines, q)
    requires !RunLines(cfg, st, lines).raised
    ensures BufferOf(RunLines(cfg, st, lines).st, q) == BufferOf(st, q) + TaggedLines(cfg, lines, q)
    decreases |lines|
  {
    if lines != [] {
      var init := lines[..|lines| - 1];
      assert !RunLines(cfg, st, init).raised;
      BufferSinceCompletion(cfg, st, init, q);
      StepBuffer(cfg, RunLines(cfg, st, init).st, lines[|lines| - 1], q);
    }
  }

  /** A line that is not a completion of `q` appends to `q`'s buffer exactly when it is tagged `q`. */
  lemma StepBuffer(cfg: Config, st: State, raw: string, q: string)
    requires !IsCompletionOf(cfg, raw, q)
    ensures
      BufferOf(StepSpec(cfg, st, raw).st, q)
        == BufferOf(st, q) + (if TaggedPid(cfg, raw) == Some(q) then [Strip(raw)] else [])
  {
    if TaggedPid(cfg, raw) != Some(q) {
      assert Entry(StepSpec(cfg, st, raw).st, q) == Entry(st, q);
    }
  }

  /**
   * An offence recorded at process `q`'s completion line holds every line of
   * `q` since its previous completion (or first sighting), the completion line
   * included.
   */
  lemma OffenceHoldsRequest(cfg: Config, st: State, lines: seq<string>, c: string, q: string)
    requires BufferOf(st, q) == []
    requires NoCompletionOf(cfg, lines, q)
    requires !RunLines(cfg, st, lines).raised
    requires IsCompletionOf(cfg, c, q)
    requires |RunLines(cfg, st, lines + [c]).st.agg.badRequests| > |RunLines(cfg, st, lines).st.agg.badRequests|
    ensures
      var reqs := RunLines(cfg, st, lines + [c]).st.agg.badRequests;
      reqs[|reqs| - 1].lines == TaggedLines(cfg, lines, q) + [Strip(c)]
  {
    var o := RunLines(cfg, st, lines);
    var r := StepSpec(cfg, o.st, c);
    RunSnoc(cfg, st, lines, c);
    assert RunLines(cfg, st, lines + [c]).st == r.st;
    BufferSinceCompletion(cfg, st, lines, q);
    CompletionVerdict(cfg, o.st, c, q);
    CloseVerdict(o.st.pids, o.st.agg, cfg.threshold, q, Strip(c), cfg.hodel(Strip(c)).value);
    var before := if q in o.st.pids then o.st.pids[q] else Fresh;
    assert before.buffer == TaggedLines(cfg, lines, q);
  }

  /** Process `q` has no usable baseline for its next delta. */
  predicate BaselineUnknown(st: State, q: string)
  {
    q !in st.pids || st.pids[q].last == Unknown
  }

  /** Without a completion line of `q`, an unknown baseline stays unknown. */
  lemma {:induction false} BaselineStaysUnknown(cfg: Config, st: State, lines: seq<string>, q: string)
    requires BaselineUnknown(st, q)
    requires NoCompletionOf(cfg, lines, q)
    ensures BaselineUnknown(RunLines(cfg, st, lines).st, q)
    decreases |lines|
  {
    if lines != [] {
      BaselineStaysUnknown(cfg, st, lines[..|lines| - 1], q);
    }
  }

  /** The first completion of a process never records an offence. */
  lemma FirstCompletionNeverOffends(cfg: Config, st: State, lines: seq<string>, c: string, q: string)
    requires q !in st.pids
    requires NoCompletionOf(cfg, lines, q)
    requires !RunLines(cfg, st, lines).raised
    requires IsCompletionOf(cfg, c, q)
    ensures RunLines(cfg, st, lines + [c]).st.agg == RunLines(cfg, st, lines).st.agg
  {
    BaselineStaysUnknown(cfg, st, lines, q);
    RunSnoc(cfg, st, lines, c);
    var o := RunLines(cfg, st, lines);
    CompletionVerdict(cfg, o.st, c, q);
    CloseVerdict(o.st.pids, o.st.agg, cfg.threshold, q, Strip(c), cfg.hodel(Strip(c)).value);
  }

  /**
   * An action line for a process whose request is still open voids the
   * baseline: the completion that follows records no offence, whatever
   * memory readings come in between.
   */
  lemma RepeatedActionVoidsBaseline(cfg: Config, st: State, a: string, lines: seq<string>, c: string, q: string)
    requires q in st.pids && !st.pids[q].requestFinished
    requires TaggedPid(cfg, a) == Some(q) && Classify(Strip(a)).ActionMark?
    requires NoCompletionOf(cfg, lines, q)
    requires !RunLines(cfg, st, [a] + lines).raised
    requires IsCompletionOf(cfg, c, q)
    ensures RunLines(cfg, st, [a] + lines + [c]).st.agg == RunLines(cfg, st, [a] + lines).st.agg
  {
    var first := RunLines(cfg, st, [a]);
    assert RunLines(cfg, st, [a]) == Continue(cfg, RunLines(cfg, st, []), a);
    assert BaselineUnknown(first.st, q);
    RunCompose(cfg, st, [a], lines);
    BaselineStaysUnknown(cfg, first.st, lines, q);
    RunSnoc(cfg, st, [a] + lines, c);
    var o := RunLines(cfg, st, [a] + lines);
    CompletionVerdict(cfg, o.st, c, q);
    CloseVerdict(o.st.pids, o.st.agg, cfg.threshold, q, Strip(c), cfg.hodel(Strip(c)).value);
  }
}
