/** The progress stream of a job: a reader polls the in-memory record,
    sends every message it has not sent yet, then the progress when it
    changed, and stops after the completed or error event, or at once when
    the record is not in the table. Only the table lookup holds the lock;
    the messages, the progress, the status, the summary and the file path
    are then read from the live
    record one after the other, while the worker may still be changing
    it. */
module Stream {
  import opened Wrappers
  import opened Events
  import opened Summary
  import opened Jobs
  import opened Scraper

  /** What the reader remembers between polls: how many messages it sent
      and the last progress it sent. */
  datatype Reader = Reader(lastMsgIdx: nat, lastProgress: int)

  /** A fresh reader has sent nothing, and -1 is no progress at all. */
  const Start: Reader := Reader(0, -1)

  datatype StreamEvent =
    | Log(message: Line)
    | ProgressEv(percent: int)
    | CompletedEv(summary: Option<Summary>, hasFile: bool)
    | ErrorEv(error: Option<string>)

  const NotFoundMessage: string := "Job not found"

  predicate Terminal(e: StreamEvent) {
    e.CompletedEv? || e.ErrorEv?
  }

  /** What one round of the loop sends: the messages not sent before, the
      progress when it changed, and the completed or error event that ends
      the stream. */
  datatype Round = Round(sent: seq<Line>, progress: Option<int>, final: Option<StreamEvent>)

  /** The events of a round, in the order they go out. */
  function RoundEvents(rd: Round): (es: seq<StreamEvent>)
    ensures |es| == |rd.sent| + (if rd.progress.Some? then 1 else 0) + (if rd.final.Some? then 1 else 0)
  {
    seq(|rd.sent|, k requires 0 <= k < |rd.sent| => Log(rd.sent[k]))
    + (if rd.progress.Some? then [ProgressEv(rd.progress.value)] else [])
    + (if rd.final.Some? then [rd.final.value] else [])
  }

  /** The moments a round reads the live record, one after the other:
      when the message loop finds nothing more to send, when it reads the
      progress, when it reads the status, when it then reads the summary
      (or the error), and when it reads the file path. */
  datatype Reading = Reading(atLog: Job, atProgress: Job, atStatus: Job, atResult: Job, atFile: Job)

  /** A reading taken while the record does not change. */
  function Locked(j: Job): Reading {
    Reading(j, j, j, j, j)
  }

  /** One round of the loop, on the reading of the record found in the
      table (`None` when it is not there), and the reader after it. */
  function PollLive(r: Reader, reading: Option<Reading>): (p: (Round, Reader))
    ensures reading.None? ==> p.0 == Round([], None, Some(ErrorEv(Some(NotFoundMessage)))) && p.1 == r
    ensures reading.Some? && r.lastMsgIdx <= |reading.value.atLog.messages| ==>
      var log := reading.value.atLog.messages;
      p.0.sent == log[r.lastMsgIdx..] && p.1.lastMsgIdx == |log|
    ensures reading.Some? ==>
      var j := reading.value.atProgress;
      && (p.0.progress.Some? <==> j.progress != r.lastProgress)
      && (p.0.progress.Some? ==> p.0.progress.value == j.progress)
      && p.1.lastProgress == j.progress
    ensures reading.Some? ==>
      var rd := reading.value;
      && (p.0.final.Some? <==> rd.atStatus.status != Running)
      && (rd.atStatus.status == Completed ==>
            p.0.final == Some(CompletedEv(rd.atResult.summary, rd.atFile.filepath.Some?)))
      && (rd.atStatus.status == Error ==> p.0.final == Some(ErrorEv(rd.atResult.error)))
    ensures p.0.final.Some? ==> Terminal(p.0.final.value)
  {
    match reading
    case None => (Round([], None, Some(ErrorEv(Some(NotFoundMessage)))), r)
    case Some(rd) =>
      var log := rd.atLog.messages;
      var sent := if r.lastMsgIdx < |log| then log[r.lastMsgIdx..] else [];
      var idx := if r.lastMsgIdx < |log| then |log| else r.lastMsgIdx;
      var pct := rd.atProgress.progress;
      var progress := if pct != r.lastProgress then Some(pct) else None;
      var final :=
        match rd.atStatus.status
        case Completed => Some(CompletedEv(rd.atResult.summary, rd.atFile.filepath.Some?))
        case Error => Some(ErrorEv(rd.atResult.error))
        case Running => None;
      (Round(sent, progress, final), Reader(idx, pct))
  }

  /** A round that reads the record once, as if the lock were held for the
      whole round: the messages, the progress and the final event all come
      from the same state of the record. */
  function Poll(r: Reader, snap: Option<Job>): (p: (Round, Reader))
    ensures snap.None? ==> p.0 == Round([], None, Some(ErrorEv(Some(NotFoundMessage)))) && p.1 == r
    ensures snap.Some? && r.lastMsgIdx <= |snap.value.messages| ==>
      p.0.sent == snap.value.messages[r.lastMsgIdx..] && p.1.lastMsgIdx == |snap.value.messages|
    ensures snap.Some? ==>
      && (p.0.progress.Some? <==> snap.value.progress != r.lastProgress)
      && (p.0.progress.Some? ==> p.0.progress.value == snap.value.progress)
      && p.1.lastProgress == snap.value.progress
      && (p.0.final.Some? <==> snap.value.status != Running)
    ensures snap.Some? && snap.value.status == Completed ==>
      p.0.final == Some(CompletedEv(snap.value.summary, snap.value.filepath.Some?))
    ensures snap.Some? && snap.value.status == Error ==> p.0.final == Some(ErrorEv(snap.value.error))
  {
    match snap
    case None => PollLive(r, None)
    case Some(j) => PollLive(r, Some(Locked(j)))
  }

  /** The rounds a stream went through and the reader after them. */
  datatype Drained = Drained(rounds: seq<Round>, reader: Reader)

  /** The loop over successive readings of the table: one round per
      reading, stopping after the round that ends the stream or when the
      readings run out. */
  function Drain(r: Reader, snaps: seq<Option<Reading>>): (d: Drained)
    ensures |d.rounds| <= |snaps|
    ensures |snaps| > 0 ==> |d.rounds| >= 1
    ensures forall k :: 0 <= k < |d.rounds| ==> d.rounds[k].final.None? || Terminal(d.rounds[k].final.value)
    decreases |snaps|
  {
    if |snaps| == 0 then Drained([], r)
    else
      var (rd, r1) := PollLive(r, snaps[0]);
      if rd.final.Some? then Drained([rd], r1)
      else
        var q := Drain(r1, snaps[1..]);
        Drained([rd] + q.rounds, q.reader)
  }

  /** Only the last round ends the stream, and a stream that has not ended
      has read every reading. */
  lemma {:induction false} DrainEndsOnce(r: Reader, snaps: seq<Option<Reading>>)
    ensures var d := Drain(r, snaps);
      && (forall k :: 0 <= k < |d.rounds| - 1 ==> d.rounds[k].final.None?)
      && (|d.rounds| == 0 || d.rounds[|d.rounds| - 1].final.None? ==> |d.rounds| == |snaps|)
    decreases |snaps|
  {
    if |snaps| > 0 {
      var (rd, r1) := PollLive(r, snaps[0]);
      if rd.final.None? {
        DrainEndsOnce(r1, snaps[1..]);
        var q := Drain(r1, snaps[1..]);
        var rs := [rd] + q.rounds;
        assert forall k :: 1 <= k < |rs| ==> rs[k] == q.rounds[k - 1];
      }
    }
  }

  /** The events of the rounds, in the order they go out. */
  function Wire(rounds: seq<Round>): seq<StreamEvent>
    decreases |rounds|
  {
    if |rounds| == 0 then [] else RoundEvents(rounds[0]) + Wire(rounds[1..])
  }

  /** A round's events hold no terminal event but its last one, and the
      last is terminal exactly when the round ends the stream. */
  lemma RoundEndsOnce(rd: Round)
    requires rd.final.None? || Terminal(rd.final.value)
    ensures var es := RoundEvents(rd);
      && (forall k :: 0 <= k < |es| - 1 ==> !Terminal(es[k]))
      && (rd.final.Some? <==> |es| > 0 && Terminal(es[|es| - 1]))
  {
    var logs := seq(|rd.sent|, k requires 0 <= k < |rd.sent| => Log(rd.sent[k]));
    var prog := if rd.progress.Some? then [ProgressEv(rd.progress.value)] else [];
    var tail := if rd.final.Some? then [rd.final.value] else [];
    var es := RoundEvents(rd);
    assert es == logs + prog + tail;
    forall k | 0 <= k < |es| ensures k < |logs| + |prog| ==> !Terminal(es[k]) {
      if k < |logs| {
        assert es[k] == logs[k];
      } else if k < |logs| + |prog| {
        assert es[k] == prog[k - |logs|];
      }
    }
  }

  /** On the wire, a stream sends at most one completed or error event,
      and only as its very last event; it sends one exactly when it
      ended. */
  lemma {:induction false} WireEndsOnce(rounds: seq<Round>)
    requires forall k :: 0 <= k < |rounds| ==> rounds[k].final.None? || Terminal(rounds[k].final.value)
    requires forall k :: 0 <= k < |rounds| - 1 ==> rounds[k].final.None?
    ensures var es := Wire(rounds);
      && (forall k :: 0 <= k < |es| - 1 ==> !Terminal(es[k]))
      && ((|rounds| > 0 && rounds[|rounds| - 1].final.Some?) <==> |es| > 0 && Terminal(es[|es| - 1]))
    decreases |rounds|
  {
    if |rounds| > 0 {
      var head := RoundEvents(rounds[0]);
      var rest := rounds[1..];
      RoundEndsOnce(rounds[0]);
      WireEndsOnce(rest);
      var tail := Wire(rest);
      var es := head + tail;
      assert Wire(rounds) == es;
      if |rest| > 0 {
        assert rounds[|rounds| - 1] == rest[|rest| - 1];
        assert |head| == 0 || !Terminal(head[|head| - 1]);
      } else {
        assert es == head;
      }
      forall k | 0 <= k < |es| - 1 ensures !Terminal(es[k]) {
        if k < |head| {
          assert es[k] == head[k];
        } else {
          assert es[k] == tail[k - |head|];
        }
      }
      if |tail| > 0 {
        assert es[|es| - 1] == tail[|tail| - 1];
      }
    }
  }

  /** The messages the rounds sent, in order. */
  function Sent(rounds: seq<Round>): seq<Line>
    decreases |rounds|
  {
    if |rounds| == 0 then [] else rounds[0].sent + Sent(rounds[1..])
  }

  /** The log as the message loop of a reading saw it. */
  function LogOf(reading: Option<Reading>): seq<Line> {
    if reading.Some? then reading.value.atLog.messages else []
  }

  /** The readings of a record that stays in the table and whose log only
      ever grows. */
  ghost predicate Growing(snaps: seq<Option<Reading>>) {
    && (forall i :: 0 <= i < |snaps| ==> snaps[i].Some?)
    && (forall i, j :: 0 <= i < j < |snaps| ==>
          |LogOf(snaps[i])| <= |LogOf(snaps[j])| && LogOf(snaps[i]) == LogOf(snaps[j])[..|LogOf(snaps[i])|])
  }

  lemma GrowingTail(snaps: seq<Option<Reading>>)
    requires |snaps| > 0 && Growing(snaps)
    ensures Growing(snaps[1..])
  {
    var rest := snaps[1..];
    forall i, j | 0 <= i < j < |rest|
      ensures |LogOf(rest[i])| <= |LogOf(rest[j])| && LogOf(rest[i]) == LogOf(rest[j])[..|LogOf(rest[i])|]
    {
      assert rest[i] == snaps[i + 1] && rest[j] == snaps[j + 1];
    }
  }

  /** A round that does not end the stream is followed by the rounds of
      the remaining readings, and what it sent comes first. */
  lemma DrainOn(r: Reader, snaps: seq<Option<Reading>>)
    requires |snaps| > 1 && PollLive(r, snaps[0]).0.final.None?
    ensures var p := PollLive(r, snaps[0]);
      var q := Drain(p.1, snaps[1..]);
      && Drain(r, snaps) == Drained([p.0] + q.rounds, q.reader)
      && Sent(Drain(r, snaps).rounds) == p.0.sent + Sent(q.rounds)
  {
    var p := PollLive(r, snaps[0]);
    var q := Drain(p.1, snaps[1..]);
    assert ([p.0] + q.rounds)[1..] == q.rounds;
  }

  /** Over readings whose log only grows, the stream sends every message
      from where the reader stood up to the log its last message loop saw,
      each exactly once and in order. Lines appended after that loop, in
      the round that ends the stream, are not sent. */
  lemma {:induction false} DrainSendsEachMessageOnce(r: Reader, snaps: seq<Option<Reading>>)
    requires |snaps| > 0 && Growing(snaps) && r.lastMsgIdx <= |LogOf(snaps[0])|
    ensures var d := Drain(r, snaps);
      var last := LogOf(snaps[|d.rounds| - 1]);
      r.lastMsgIdx <= |last| && Sent(d.rounds) == last[r.lastMsgIdx..] && d.reader.lastMsgIdx == |last|
    decreases |snaps|
  {
    var p := PollLive(r, snaps[0]);
    var rd, r1 := p.0, p.1;
    var m0 := LogOf(snaps[0]);
    assert rd.sent == m0[r.lastMsgIdx..] && r1.lastMsgIdx == |m0|;
    if rd.final.None? && |snaps| > 1 {
      var rest := snaps[1..];
      GrowingTail(snaps);
      GrowingAt(snaps, 0, 1);
      assert rest[0] == snaps[1];
      DrainSendsEachMessageOnce(r1, rest);
      var q := Drain(r1, rest);
      DrainOn(r, snaps);
      var n := |q.rounds|;
      assert rest[n - 1] == snaps[n];
      GrowingAt(snaps, 0, n);
      LogsJoin(m0, LogOf(snaps[n]), r.lastMsgIdx);
    } else {
      DrainStops(r, snaps);
    }
  }

  /** Two readings of a growing log: the earlier log is a prefix of the
      later one. */
  lemma GrowingAt(snaps: seq<Option<Reading>>, i: nat, j: nat)
    requires Growing(snaps) && i < j < |snaps|
    ensures |LogOf(snaps[i])| <= |LogOf(snaps[j])| && LogOf(snaps[i]) == LogOf(snaps[j])[..|LogOf(snaps[i])|]
  {
  }

  /** What is left of a log from `i`, then what a longer log adds, is
      what is left of the longer log from `i`. */
  lemma LogsJoin(m0: seq<Line>, last: seq<Line>, i: nat)
    requires i <= |m0| <= |last| && m0 == last[..|m0|]
    ensures m0[i..] + last[|m0|..] == last[i..]
  {
  }

  /** A round that ends the stream, or reads the last reading, is the
      stream's only round. */
  lemma DrainStops(r: Reader, snaps: seq<Option<Reading>>)
    requires |snaps| > 0
    requires PollLive(r, snaps[0]).0.final.Some? || |snaps| == 1
    ensures var p := PollLive(r, snaps[0]);
      && Drain(r, snaps) == Drained([p.0], p.1)
      && Sent(Drain(r, snaps).rounds) == p.0.sent
  {
    var p := PollLive(r, snaps[0]);
    assert Sent([p.0]) == p.0.sent + Sent([]);
  }

  /** The percents the rounds sent, in order. */
  function Progresses(rounds: seq<Round>): seq<int>
    decreases |rounds|
  {
    if |rounds| == 0 then []
    else (if rounds[0].progress.Some? then [rounds[0].progress.value] else []) + Progresses(rounds[1..])
  }

  /** No two neighbours are equal. */
  ghost predicate NoRepeats(xs: seq<int>) {
    forall k :: 0 <= k < |xs| - 1 ==> xs[k] != xs[k + 1]
  }

  /** Two runs without repeats, the second starting on the value the
      first ends on, join into one. */
  lemma NoRepeatsJoin(xs: seq<int>, ys: seq<int>)
    requires |xs| > 0 && |ys| > 0 && xs[|xs| - 1] == ys[0]
    requires NoRepeats(xs) && NoRepeats(ys)
    ensures NoRepeats(xs + ys[1..])
  {
    var zs := xs + ys[1..];
    forall k | 0 <= k < |zs| - 1 ensures zs[k] != zs[k + 1] {
      if k + 1 < |xs| {
        assert zs[k] == xs[k] && zs[k + 1] == xs[k + 1];
      } else {
        assert zs[k] == ys[k + 1 - |xs|] && zs[k + 1] == ys[k + 2 - |xs|];
      }
    }
  }

  /** One round sends a percent only when it differs from the last one
      sent, and the reader then remembers it. */
  lemma PollProgress(r: Reader, snap: Option<Reading>)
    ensures var (rd, r1) := PollLive(r, snap);
      var xs := [r.lastProgress] + (if rd.progress.Some? then [rd.progress.value] else []);
      NoRepeats(xs) && r1.lastProgress == xs[|xs| - 1]
  {
  }

  /** The reader ends on the last percent the stream sent, or on its old
      one when it sent none. */
  lemma {:induction false} DrainLastProgress(r: Reader, snaps: seq<Option<Reading>>)
    ensures var d := Drain(r, snaps);
      var xs := [r.lastProgress] + Progresses(d.rounds);
      d.reader.lastProgress == xs[|xs| - 1]
    decreases |snaps|
  {
    if |snaps| > 0 {
      var p := PollLive(r, snaps[0]);
      var rd, r1 := p.0, p.1;
      PollProgress(r, snaps[0]);
      if rd.final.None? {
        DrainLastProgress(r1, snaps[1..]);
        var q := Drain(r1, snaps[1..]);
        assert Drain(r, snaps) == Drained([rd] + q.rounds, q.reader);
        assert ([rd] + q.rounds)[1..] == q.rounds;
      } else {
        assert Drain(r, snaps) == Drained([rd], r1);
        assert [rd][1..] == [];
      }
    }
  }

  /** The stream never sends the same percent twice in a row, and its
      first percent differs from the one the reader last sent. */
  lemma {:induction false} DrainProgressChanges(r: Reader, snaps: seq<Option<Reading>>)
    ensures NoRepeats([r.lastProgress] + Progresses(Drain(r, snaps).rounds))
    decreases |snaps|
  {
    if |snaps| > 0 {
      var p := PollLive(r, snaps[0]);
      var rd, r1 := p.0, p.1;
      PollProgress(r, snaps[0]);
      var ps := if rd.progress.Some? then [rd.progress.value] else [];
      var head := [r.lastProgress] + ps;
      if rd.final.None? {
        DrainProgressChanges(r1, snaps[1..]);
        var q := Drain(r1, snaps[1..]);
        var ys := [r1.lastProgress] + Progresses(q.rounds);
        assert Drain(r, snaps) == Drained([rd] + q.rounds, q.reader);
        assert ([rd] + q.rounds)[1..] == q.rounds;
        assert [r.lastProgress] + Progresses([rd] + q.rounds) == head + ys[1..];
        NoRepeatsJoin(head, ys);
      } else {
        assert Drain(r, snaps) == Drained([rd], r1);
        assert [rd][1..] == [];
        assert Progresses([rd]) == ps;
      }
    }
  }

  /** The reading the stream takes: the in-memory record only. */
  function Snapshot(st: Store, id: string): (r: Option<Job>)
    ensures r.Some? <==> id in st.memory
    ensures r.Some? ==> r.value == st.memory[id]
  {
    if id in st.memory then Some(st.memory[id]) else None
  }

  /** A stream opened for an id that is not in the table sends one error
      event and ends, even when a finished snapshot of it is on disk and
      the lookup would find it. */
  lemma UnknownJobStream(st: Store, id: string, r: Reader)
    requires id !in st.memory
    ensures Poll(r, Snapshot(st, id)).0 == Round([], None, Some(ErrorEv(Some(NotFoundMessage))))
    ensures id in st.disk ==> GetJob(st, id) == Some(st.disk[id].job)
  {
  }

  /** A fresh stream polling a finished job sends its whole log, then the
      final progress, then the completed event (with a file exactly when
      records were exported) or the error event carrying the message. */
  lemma FinishedJobStream(st: Store, id: string, now: int, run: Run, location: string, tempDir: string, done: int)
    requires id in st.memory && st.memory[id] == NewJob(id, now)
    ensures var after := Settle(st, id, run, location, tempDir, done);
      && id in after.memory
      && var j := after.memory[id];
         var rd := Poll(Start, Some(j)).0;
         && rd.sent == j.messages && |j.messages| == |run.events| + 1
         && (j.progress != Start.lastProgress ==> rd.progress == Some(j.progress))
         && (run.result.Success? ==> rd.progress == Some(100))
         && (run.result.Success? ==> rd.final == Some(CompletedEv(j.summary, |run.result.value| > 0)))
         && (run.result.Success? && |run.result.value| > 0 ==> j.summary == Some(GetSummary(run.result.value)))
         && (run.result.Success? && |run.result.value| == 0 ==> j.summary == Some(EmptySummary))
         && (run.result.Failure? ==> rd.final == Some(ErrorEv(Some(run.result.error))))
  {
    SettleEffect(st, id, run, location, tempDir, done);
    if run.result.Success? {
      SettleCompleted(st, id, run, location, tempDir, done);
    }
  }

  /** The readings of a stream that holds the lock for each whole round. */
  ghost predicate AllLocked(snaps: seq<Option<Reading>>) {
    forall i :: 0 <= i < |snaps| && snaps[i].Some? ==> snaps[i].value == Locked(snaps[i].value.atStatus)
  }

  /** With each round read under the lock, a stream that ends on a finished
      record has sent every line of that record, the closing one included,
      each once and in order. */
  lemma LockedStreamSendsWholeLog(r: Reader, snaps: seq<Option<Reading>>)
    requires |snaps| > 0 && Growing(snaps) && AllLocked(snaps) && r.lastMsgIdx <= |LogOf(snaps[0])|
    ensures var d := Drain(r, snaps);
      var k := |d.rounds| - 1;
      d.rounds[k].final.Some? ==>
        && snaps[k].value.atStatus.status != Running
        && Sent(d.rounds) == snaps[k].value.atStatus.messages[r.lastMsgIdx..]
  {
    DrainSendsEachMessageOnce(r, snaps);
    var d := Drain(r, snaps);
    var k := |d.rounds| - 1;
    DrainReadings(r, snaps);
    assert snaps[k].value == Locked(snaps[k].value.atStatus);
  }

  /** The last round of a stream is the poll of the reading at its index,
      from the reader the rounds before it left. */
  lemma {:induction false} DrainReadings(r: Reader, snaps: seq<Option<Reading>>)
    requires |snaps| > 0
    ensures var d := Drain(r, snaps);
      var k := |d.rounds| - 1;
      && 0 <= k < |snaps|
      && (d.rounds[k].final.Some? && snaps[k].Some? ==> snaps[k].value.atStatus.status != Running)
    decreases |snaps|
  {
    var p := PollLive(r, snaps[0]);
    var rd, r1 := p.0, p.1;
    if rd.final.None? && |snaps| > 1 {
      DrainReadings(r1, snaps[1..]);
      var q := Drain(r1, snaps[1..]);
      assert Drain(r, snaps) == Drained([rd] + q.rounds, q.reader);
      assert ([rd] + q.rounds)[|q.rounds|] == q.rounds[|q.rounds| - 1];
      assert snaps[1..][|q.rounds| - 1] == snaps[|q.rounds|];
    } else if rd.final.None? {
      assert Drain(r, snaps).rounds == [rd];
    }
  }

  /** Without the lock, a round whose message loop ends just before the
      worker records the outcome reads the finished status: it sends the
      completed or error event and stops, and the closing line ("Exported",
      "No businesses" or "Error") is never sent. */
  lemma ClosingLineCanBeLost(st: Store, id: string, run: Run, location: string, tempDir: string, done: int)
    requires id in st.memory
    ensures id in Feed(st, id, run.events).memory
    ensures var before := Feed(st, id, run.events).memory[id];
      var after := Settle(st, id, run, location, tempDir, done);
      && id in after.memory
      && var j := after.memory[id];
         var rd := PollLive(Reader(|before.messages|, before.progress), Some(Reading(before, j, j, j, j))).0;
         && rd.final.Some? && rd.sent == []
         && |j.messages| == |before.messages| + 1
  {
    FeedEffect(st, id, run.events);
    SettleEffect(st, id, run, location, tempDir, done);
  }

  /** Without the lock, a round can read the status just after the worker
      sets it to completed and before it writes the file path and the
      summary: the stream then ends with a completed event that has no
      summary and no file, although the run returned records and the
      settled record holds both. */
  lemma CompletedEventCanLackResult(st: Store, id: string, run: Run, location: string, tempDir: string, done: int, r: Reader)
    requires id in st.memory && st.memory[id].summary.None? && st.memory[id].filepath.None?
    requires run.result.Success? && |run.result.value| > 0
    ensures id in Feed(st, id, run.events).memory
    ensures var before := Feed(st, id, run.events).memory[id];
      var mid := before.(status := Completed);
      var after := Settle(st, id, run, location, tempDir, done);
      && PollLive(r, Some(Reading(before, before, mid, mid, mid))).0.final == Some(CompletedEv(None, false))
      && id in after.memory
      && after.memory[id].summary == Some(GetSummary(run.result.value))
      && after.memory[id].filepath.Some?
  {
    FeedEffect(st, id, run.events);
    SettleCompleted(st, id, run, location, tempDir, done);
  }
}
