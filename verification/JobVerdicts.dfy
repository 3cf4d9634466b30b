/** What the verdict of a job means: several runs against the memoised output, and the case verdict on the platform. */
module JobVerdicts {
  import opened Wrappers
  import opened IsolateJob
  import RubyText
  import Grader
  import Judge0Batch

  /** The run came to a verdict: nothing raised, the program compiled and the sandbox was removed. */
  predicate IsJudged(c: RunCalls) {
    RunEnd(c).RunJudged?
  }

  /** The run was judged and ended without time-out, signal, exit code or sandbox error. */
  predicate EndedCleanly(c: RunCalls) {
    IsJudged(c) && IsClean(MetaOf(c.execute))
  }

  /** The verdict of a run judged on its own output. */
  function Own(c: RunCalls, expected: Option<string>): int
    requires IsJudged(c)
  {
    RunStatus(MetaOf(c.execute), expected, c.execute.stdout)
  }

  predicate IsAccepted(c: RunCalls, expected: Option<string>) {
    IsJudged(c) && Own(c, expected) == AC
  }

  /** The measurements of a list of runs. */
  function Times(calls: seq<RunCalls>): (ts: seq<Option<real>>)
    ensures |ts| == |calls|
  {
    seq(|calls|, i requires 0 <= i < |calls| => if IsJudged(calls[i]) then MetaOf(calls[i].execute).time else None)
  }

  function Memories(calls: seq<RunCalls>): (ms: seq<Option<int>>)
    ensures |ms| == |calls|
  {
    seq(|calls|, i requires 0 <= i < |calls| => if IsJudged(calls[i]) then MetaOf(calls[i].execute).memory else None)
  }

  /** Averaging raises: there are several runs and a measurement is missing. */
  predicate AverageRaises(times: seq<Option<real>>, memories: seq<Option<int>>) {
    SumRaises(times) || SumRaises(memories)
  }

  function Averaged(times: seq<Option<real>>, memories: seq<Option<int>>, status: int, stdout: Option<string>): End {
    if AverageRaises(times, memories) then Failed(NIL_SUM, false) else Finished(status, times, memories, stdout)
  }

  /***** the job without a memo *****/

  /** The job as `Outcome` has it, except that every run is judged on its own output. */
  function Plain(calls: seq<RunCalls>, expected: Option<string>, times: seq<Option<real>>, memories: seq<Option<int>>,
                 status: int, stdout: Option<string>): End
    decreases |calls|
  {
    if calls == [] then Averaged(times, memories, status, stdout)
    else
      match RunEnd(calls[0])
      case RunFailed(m, afterCe) => Failed(m, afterCe)
      case RunRejected => Rejected
      case RunJudged =>
        var meta, st := MetaOf(calls[0].execute), Own(calls[0], expected);
        Plain(if st == AC then calls[1..] else [], expected, times + [meta.time], memories + [meta.memory], st,
              calls[0].execute.stdout)
  }

  function Intended(calls: seq<RunCalls>, expected: Option<string>): End {
    Plain(calls, expected, [], [], PROCESS, None)
  }

  /** The runs after an accepted one that was compared: every run that ends cleanly passes. */
  function Later(calls: seq<RunCalls>, expected: Option<string>, times: seq<Option<real>>, memories: seq<Option<int>>,
                 status: int, stdout: Option<string>): End
    decreases |calls|
  {
    if calls == [] then Averaged(times, memories, status, stdout)
    else
      match RunEnd(calls[0])
      case RunFailed(m, afterCe) => Failed(m, afterCe)
      case RunRejected => Rejected
      case RunJudged =>
        var meta := MetaOf(calls[0].execute);
        var st := if IsClean(meta) then AC else Own(calls[0], expected);
        Later(if st == AC then calls[1..] else [], expected, times + [meta.time], memories + [meta.memory], st,
              calls[0].execute.stdout)
  }

  lemma NotClean(meta: Meta, expected: Option<string>, a: Option<string>, b: Option<string>)
    requires !IsClean(meta)
    ensures RunStatus(meta, expected, a) == RunStatus(meta, expected, b) != AC
    ensures RunStatus(meta, expected, a) != WA
  {
  }

  lemma CleanStatus(meta: Meta, expected: Option<string>, out: Option<string>)
    requires IsClean(meta)
    ensures RunStatus(meta, expected, out) == if expected.None? || StripText(expected) == StripText(out) then AC else WA
  {
  }

  /** Once the first accepted output is remembered, later outputs no longer matter. */
  lemma {:induction false} RestRemembers(calls: seq<RunCalls>, expected: Option<string>, memo: Option<string>,
                                         times: seq<Option<real>>, memories: seq<Option<int>>,
                                         status: int, stdout: Option<string>)
    requires expected.Some? && memo.Some? && StripText(expected) == StripText(memo)
    ensures Rest(calls, expected, memo, times, memories, status, stdout)
         == Later(calls, expected, times, memories, status, stdout)
    decreases |calls|
  {
    if calls != [] && IsJudged(calls[0]) {
      var meta, out := MetaOf(calls[0].execute), calls[0].execute.stdout;
      var st := if IsClean(meta) then AC else Own(calls[0], expected);
      if IsClean(meta) {
        CleanStatus(meta, expected, memo);
      } else {
        NotClean(meta, expected, memo, out);
      }
      RestRemembers(if st == AC then calls[1..] else [], expected, memo,
                    times + [meta.time], memories + [meta.memory], st, out);
    }
  }

  /** Without an expected output nothing is compared, and every run is judged on its own. */
  lemma {:induction false} RestUncompared(calls: seq<RunCalls>, times: seq<Option<real>>, memories: seq<Option<int>>,
                                          status: int, stdout: Option<string>)
    ensures Rest(calls, None, None, times, memories, status, stdout)
            == Plain(calls, None, times, memories, status, stdout)
    decreases |calls|
  {
    if calls != [] && IsJudged(calls[0]) {
      var meta, st := MetaOf(calls[0].execute), Own(calls[0], None);
      RestUncompared(if st == AC then calls[1..] else [], times + [meta.time], memories + [meta.memory], st,
                     calls[0].execute.stdout);
    }
  }

  lemma RestEmpty(expected: Option<string>, memo: Option<string>, times: seq<Option<real>>, memories: seq<Option<int>>,
                  status: int, stdout: Option<string>)
    ensures Rest([], expected, memo, times, memories, status, stdout) == Averaged(times, memories, status, stdout)
         == Plain([], expected, times, memories, status, stdout) == Later([], expected, times, memories, status, stdout)
  {
  }

  lemma AcceptedIsRemembered(meta: Meta, expected: Option<string>, out: Option<string>)
    requires expected.Some? && RunStatus(meta, expected, out) == AC
    ensures out.Some? && StripText(expected) == StripText(out) && MemoAfter(None, meta, expected, out) == out
  {
    if !IsClean(meta) {
      NotClean(meta, expected, out, out);
    }
  }

  /**
   What a job of several runs comes to, for every outcome of every external call: as intended, except that after an
   accepted and compared first run only clean endings count.
   */
  lemma MultiRunVerdict(calls: seq<RunCalls>, expected: Option<string>)
    requires calls != []
    ensures Outcome(calls, expected) ==
            if expected.Some? && IsAccepted(calls[0], expected) then
              var meta, out := MetaOf(calls[0].execute), calls[0].execute.stdout;
              Later(calls[1..], expected, [meta.time], [meta.memory], AC, out)
            else Intended(calls, expected)
  {
    if expected.None? {
      RestUncompared(calls, [], [], PROCESS, None);
    } else if IsJudged(calls[0]) {
      RestStep(calls, expected, None, [], [], PROCESS, None);
      var meta, out := MetaOf(calls[0].execute), calls[0].execute.stdout;
      assert [] + [meta.time] == [meta.time] && [] + [meta.memory] == [meta.memory];
      if Own(calls[0], expected) == AC {
        AcceptedIsRemembered(meta, expected, out);
        RestRemembers(calls[1..], expected, out, [meta.time], [meta.memory], AC, out);
      } else {
        RestEmpty(expected, MemoAfter(None, meta, expected, out), [meta.time], [meta.memory], Own(calls[0], expected),
                  out);
      }
    }
  }

  /***** when a job is accepted *****/

  lemma TimesStep(calls: seq<RunCalls>, times: seq<Option<real>>, memories: seq<Option<int>>)
    requires calls != [] && IsJudged(calls[0])
    ensures times + [MetaOf(calls[0].execute).time] + Times(calls[1..]) == times + Times(calls)
    ensures memories + [MetaOf(calls[0].execute).memory] + Memories(calls[1..]) == memories + Memories(calls)
  {
    assert Times(calls) == [MetaOf(calls[0].execute).time] + Times(calls[1..]);
    assert Memories(calls) == [MetaOf(calls[0].execute).memory] + Memories(calls[1..]);
  }

  lemma {:induction false} LaterAcceptedIff(calls: seq<RunCalls>, expected: Option<string>, times: seq<Option<real>>,
                                            memories: seq<Option<int>>, stdout: Option<string>)
    ensures EndStatus(Later(calls, expected, times, memories, AC, stdout)) == AC <==>
            && (forall i :: 0 <= i < |calls| ==> EndedCleanly(calls[i]))
            && !AverageRaises(times + Times(calls), memories + Memories(calls))
    decreases |calls|
  {
    if calls == [] {
      assert times + Times(calls) == times && memories + Memories(calls) == memories;
    } else if EndedCleanly(calls[0]) {
      var meta := MetaOf(calls[0].execute);
      TimesStep(calls, times, memories);
      LaterAcceptedIff(calls[1..], expected, times + [meta.time], memories + [meta.memory], calls[0].execute.stdout);
      assert forall i :: 1 <= i < |calls| ==> calls[i] == calls[1..][i - 1];
    } else if IsJudged(calls[0]) {
      NotClean(MetaOf(calls[0].execute), expected, calls[0].execute.stdout, None);
    }
  }

  ghost predicate AllAccepted(calls: seq<RunCalls>, expected: Option<string>) {
    forall i :: 0 <= i < |calls| ==> IsAccepted(calls[i], expected)
  }

  lemma AllAcceptedStep(calls: seq<RunCalls>, expected: Option<string>)
    requires calls != []
    ensures AllAccepted(calls, expected) <==> IsAccepted(calls[0], expected) && AllAccepted(calls[1..], expected)
  {
    assert forall i :: 1 <= i < |calls| ==> calls[i] == calls[1..][i - 1];
  }

  lemma {:induction false} PlainAcceptedIff(calls: seq<RunCalls>, expected: Option<string>, times: seq<Option<real>>,
                                            memories: seq<Option<int>>, status: int, stdout: Option<string>)
    requires calls == [] ==> status == AC
    ensures EndStatus(Plain(calls, expected, times, memories, status, stdout)) == AC <==>
            AllAccepted(calls, expected)
            && !AverageRaises(times + Times(calls), memories + Memories(calls))
    decreases |calls|
  {
    if calls == [] {
      assert times + Times(calls) == times && memories + Memories(calls) == memories;
    } else if IsAccepted(calls[0], expected) {
      AllAcceptedStep(calls, expected);
      var meta := MetaOf(calls[0].execute);
      TimesStep(calls, times, memories);
      PlainAcceptedIff(calls[1..], expected, times + [meta.time], memories + [meta.memory], AC,
                       calls[0].execute.stdout);
    } else if IsJudged(calls[0]) {
      var meta := MetaOf(calls[0].execute);
      RestEmpty(expected, None, times + [meta.time], memories + [meta.memory], Own(calls[0], expected),
                calls[0].execute.stdout);
    }
  }

  lemma AcceptedEndsCleanly(c: RunCalls, expected: Option<string>)
    ensures IsAccepted(c, expected) ==> EndedCleanly(c)
    ensures expected.None? && EndedCleanly(c) ==> IsAccepted(c, expected)
  {
    if IsJudged(c) && !EndedCleanly(c) {
      NotClean(MetaOf(c.execute), expected, c.execute.stdout, None);
    }
  }

  /**
   A job is accepted exactly when all runs are judged and end cleanly, the first one is accepted on its output, and
   no measurement is missing when there are several.
   */
  lemma AcceptedIff(calls: seq<RunCalls>, expected: Option<string>)
    requires calls != []
    ensures EndStatus(Outcome(calls, expected)) == AC <==>
            && IsAccepted(calls[0], expected) && (forall i :: 0 <= i < |calls| ==> EndedCleanly(calls[i]))
            && !AverageRaises(Times(calls), Memories(calls))
  {
    MultiRunVerdict(calls, expected);
    AcceptedEndsCleanly(calls[0], expected);
    assert [] + Times(calls) == Times(calls) && [] + Memories(calls) == Memories(calls);
    if expected.Some? && IsAccepted(calls[0], expected) {
      var meta := MetaOf(calls[0].execute);
      TimesStep(calls, [], []);
      assert [] + [meta.time] == [meta.time] && [] + [meta.memory] == [meta.memory];
      LaterAcceptedIff(calls[1..], expected, [meta.time], [meta.memory], calls[0].execute.stdout);
      assert forall i :: 1 <= i < |calls| ==> calls[i] == calls[1..][i - 1];
    } else {
      PlainAcceptedIff(calls, expected, [], [], PROCESS, None);
      forall i | 0 <= i < |calls| && expected.None?
        ensures IsAccepted(calls[i], expected) <==> EndedCleanly(calls[i])
      {
        AcceptedEndsCleanly(calls[i], expected);
      }
    }
  }

  /***** when the verdict is the intended one *****/

  /** Run `j` is a wrong answer, reached through runs accepted on their own output. */
  predicate WrongAt(calls: seq<RunCalls>, expected: Option<string>, j: int) {
    && 0 <= j < |calls| && IsJudged(calls[j]) && Own(calls[j], expected) == WA
    && forall i :: 0 <= i < j ==> IsAccepted(calls[i], expected)
  }

  /** A compilation is rejected after nothing but clean endings. */
  predicate ReachesRejection(calls: seq<RunCalls>) {
    calls != [] && (RunEnd(calls[0]).RunRejected? || (EndedCleanly(calls[0]) && ReachesRejection(calls[1..])))
  }

  lemma RaisesStays(times: seq<Option<real>>, memories: seq<Option<int>>, t: Option<real>, m: Option<int>)
    requires AverageRaises(times, memories)
    ensures AverageRaises(times + [t], memories + [m])
  {
  }

  /** With a missing measurement among several runs the job cannot be judged any more. */
  lemma {:induction false} LaterRaising(calls: seq<RunCalls>, expected: Option<string>, times: seq<Option<real>>,
                                        memories: seq<Option<int>>, status: int, stdout: Option<string>)
    requires AverageRaises(times, memories)
    ensures EndStatus(Later(calls, expected, times, memories, status, stdout)) ==
            if ReachesRejection(calls) then CE else BOXERR
    decreases |calls|
  {
    if calls != [] && IsJudged(calls[0]) {
      var meta := MetaOf(calls[0].execute);
      RaisesStays(times, memories, meta.time, meta.memory);
      if IsClean(meta) {
        LaterRaising(calls[1..], expected, times + [meta.time], memories + [meta.memory], AC, calls[0].execute.stdout);
      } else {
        NotClean(meta, expected, calls[0].execute.stdout, None);
      }
    }
  }

  lemma {:induction false} LaterIsNeverWrong(calls: seq<RunCalls>, expected: Option<string>, times: seq<Option<real>>,
                                             memories: seq<Option<int>>, status: int, stdout: Option<string>)
    requires status != WA
    ensures EndStatus(Later(calls, expected, times, memories, status, stdout)) != WA
    decreases |calls|
  {
    if calls != [] && IsJudged(calls[0]) {
      var meta := MetaOf(calls[0].execute);
      var st := if IsClean(meta) then AC else Own(calls[0], expected);
      if !IsClean(meta) {
        NotClean(meta, expected, calls[0].execute.stdout, None);
      }
      LaterIsNeverWrong(if st == AC then calls[1..] else [], expected,
                        times + [meta.time], memories + [meta.memory], st, calls[0].execute.stdout);
    }
  }

  /** The wrong answer at `j` makes no difference: both ways the job ends in an Internal Error. */
  predicate NoDifference(calls: seq<RunCalls>, times: seq<Option<real>>, memories: seq<Option<int>>, j: int)
    requires 0 <= j < |calls|
  {
    AverageRaises(times + Times(calls[..j + 1]), memories + Memories(calls[..j + 1]))
      && !ReachesRejection(calls[j + 1..])
  }

  /** Judging the remaining runs by their endings and by their outputs comes to the same status. */
  predicate SameEnd(calls: seq<RunCalls>, expected: Option<string>, times: seq<Option<real>>,
                    memories: seq<Option<int>>, stdout: Option<string>) {
    EndStatus(Later(calls, expected, times, memories, AC, stdout))
      == EndStatus(Plain(calls, expected, times, memories, AC, stdout))
  }

  lemma WrongNow(calls: seq<RunCalls>, expected: Option<string>, times: seq<Option<real>>, memories: seq<Option<int>>,
                 stdout: Option<string>)
    requires WrongAt(calls, expected, 0) && expected.Some?
    ensures SameEnd(calls, expected, times, memories, stdout) <==> NoDifference(calls, times, memories, 0)
  {
    var meta, out := MetaOf(calls[0].execute), calls[0].execute.stdout;
    var ts, ms := times + [meta.time], memories + [meta.memory];
    if !IsClean(meta) {
      NotClean(meta, expected, out, None);
    }
    assert Times(calls[..1]) == [meta.time] && Memories(calls[..1]) == [meta.memory];
    assert EndStatus(Plain(calls, expected, times, memories, AC, stdout))
        == if AverageRaises(ts, ms) then BOXERR else WA;
    if AverageRaises(ts, ms) {
      LaterRaising(calls[1..], expected, ts, ms, AC, out);
    } else {
      LaterIsNeverWrong(calls[1..], expected, ts, ms, AC, out);
    }
  }

  lemma WrongShift(calls: seq<RunCalls>, expected: Option<string>, times: seq<Option<real>>,
                   memories: seq<Option<int>>, j: int)
    requires calls != [] && IsAccepted(calls[0], expected) && 0 < j < |calls|
    ensures WrongAt(calls, expected, j) <==> WrongAt(calls[1..], expected, j - 1)
    ensures NoDifference(calls, times, memories, j) <==>
            NoDifference(calls[1..], times + [MetaOf(calls[0].execute).time],
                         memories + [MetaOf(calls[0].execute).memory], j - 1)
  {
    var front := calls[..j + 1];
    TimesStep(front, times, memories);
    assert front[0] == calls[0] && front[1..] == calls[1..][..j];
    assert calls[1..][j..] == calls[j + 1..];
    assert forall i :: 1 <= i < |calls| ==> calls[i] == calls[1..][i - 1];
    assert forall i :: 0 <= i < |calls| - 1 ==> calls[1..][i] == calls[i + 1];
  }

  lemma NeitherAcceptedNorWrong(c: RunCalls, expected: Option<string>)
    requires IsJudged(c) && Own(c, expected) != AC && Own(c, expected) != WA
    ensures !IsClean(MetaOf(c.execute))
  {
    if IsClean(MetaOf(c.execute)) {
      CleanStatus(MetaOf(c.execute), expected, c.execute.stdout);
    }
  }

  /** A run that is neither accepted nor wrong ends the job, either way of judging. */
  lemma StopsAlike(calls: seq<RunCalls>, expected: Option<string>, times: seq<Option<real>>, memories: seq<Option<int>>,
                   stdout: Option<string>)
    requires calls != [] && IsJudged(calls[0]) && Own(calls[0], expected) != AC && Own(calls[0], expected) != WA
    ensures SameEnd(calls, expected, times, memories, stdout)
  {
    NeitherAcceptedNorWrong(calls[0], expected);
    var meta := MetaOf(calls[0].execute);
    RestEmpty(expected, None, times + [meta.time], memories + [meta.memory], Own(calls[0], expected),
              calls[0].execute.stdout);
  }

  lemma {:induction false} LaterIsPlainIff(calls: seq<RunCalls>, expected: Option<string>, times: seq<Option<real>>,
                                           memories: seq<Option<int>>, stdout: Option<string>)
    requires expected.Some?
    ensures SameEnd(calls, expected, times, memories, stdout) <==>
            forall j | WrongAt(calls, expected, j) :: NoDifference(calls, times, memories, j)
    decreases |calls|
  {
    if calls == [] || !IsJudged(calls[0]) {
    } else if WrongAt(calls, expected, 0) {
      WrongNow(calls, expected, times, memories, stdout);
      assert forall j :: WrongAt(calls, expected, j) ==> j == 0;
    } else if IsAccepted(calls[0], expected) {
      var meta := MetaOf(calls[0].execute);
      AcceptedEndsCleanly(calls[0], expected);
      LaterIsPlainIff(calls[1..], expected, times + [meta.time], memories + [meta.memory], calls[0].execute.stdout);
      forall j | 0 < j < |calls|
        ensures WrongAt(calls, expected, j) <==> WrongAt(calls[1..], expected, j - 1)
        ensures NoDifference(calls, times, memories, j)
            <==> NoDifference(calls[1..], times + [meta.time], memories + [meta.memory], j - 1)
      {
        WrongShift(calls, expected, times, memories, j);
      }
      assert forall k :: WrongAt(calls[1..], expected, k) ==> WrongAt(calls, expected, k + 1);
    } else {
      StopsAlike(calls, expected, times, memories, stdout);
    }
  }

  lemma NeverWrongUncompared(c: RunCalls)
    requires IsJudged(c)
    ensures Own(c, None) != WA
  {
  }

  /**
   The stored verdict is the intended one exactly when no run after the first, reached through accepted runs, is a
   wrong answer, or when it makes no difference because a missing measurement has spoilt the job anyway and no
   later compilation is rejected.
   */
  lemma IntendedIff(calls: seq<RunCalls>, expected: Option<string>)
    requires calls != []
    ensures EndStatus(Outcome(calls, expected)) == EndStatus(Intended(calls, expected)) <==>
            forall j | WrongAt(calls, expected, j) && j > 0 :: NoDifference(calls, [], [], j)
  {
    MultiRunVerdict(calls, expected);
    if expected.Some? && IsAccepted(calls[0], expected) {
      var meta := MetaOf(calls[0].execute);
      assert [] + [meta.time] == [meta.time] && [] + [meta.memory] == [meta.memory];
      LaterIsPlainIff(calls[1..], expected, [meta.time], [meta.memory], calls[0].execute.stdout);
      forall j | 0 < j < |calls|
        ensures WrongAt(calls, expected, j) <==> WrongAt(calls[1..], expected, j - 1)
        ensures NoDifference(calls, [], [], j) <==> NoDifference(calls[1..], [meta.time], [meta.memory], j - 1)
      {
        WrongShift(calls, expected, [], [], j);
      }
      assert forall k :: WrongAt(calls[1..], expected, k) ==> WrongAt(calls, expected, k + 1);
    } else {
      forall j | WrongAt(calls, expected, j) && j > 0
        ensures false
      {
        assert IsAccepted(calls[0], expected);
        NeverWrongUncompared(calls[j]);
      }
    }
  }

  /***** the metadata file *****/

  /** A file that cannot be parsed ends the run, whatever the program printed. */
  lemma UnreadableFile(text: string, numbers: Numbers, stdout: Option<string>)
    ensures !WasRead(Executed(text, numbers, stdout)) <==>
            exists line :: line in RubyText.Split(text, '\n') && forall i :: 0 <= i < |line| ==> line[i] == ':'
  {
    RubyText.MetadataRaisesIff(text);
  }

  /** From the lines the sandbox writes to the status the verdict starts from: the last one given, if any. */
  lemma PrintedStatus(kvs: RubyText.KeyValues, numbers: Numbers, stdout: Option<string>)
    requires RubyText.Printable(kvs)
    ensures var call := Executed(RubyText.Print(kvs), numbers, stdout);
            && WasRead(call)
            && (MetaOf(call).status.None? <==> forall i :: 0 <= i < |kvs| ==> kvs[i].0 != "status")
            && (forall i | 0 <= i < |kvs| && kvs[i].0 == "status" && forall j :: i < j < |kvs| ==>
                kvs[j].0 != "status" ::
                  MetaOf(call).status.Some? && RubyText.ColonsDropped(kvs[i].1, MetaOf(call).status.value))
  {
    RubyText.MetadataRoundTrip(kvs);
  }

  /***** the verdict by value *****/

  /** The text says that `execve` failed on something for this reason. */
  ghost predicate FailedExecve(text: string, reason: string) {
    exists x: string :: x != "" && text == "execve(" + x + "): " + reason
  }

  ghost predicate IsExecveFailure(text: string) {
    || FailedExecve(text, "Exec format error")
    || FailedExecve(text, "No such file or directory")
    || FailedExecve(text, "Permission denied")
  }

  lemma ExecveLineIff(line: string, reason: string)
    ensures IsExecveLine(line, reason) <==> FailedExecve(line, reason)
  {
    var end := "): " + reason;
    if IsExecveLine(line, reason) {
      var x := line[7..|line| - |end|];
      assert line == line[..7] + x + line[|line| - |end|..];
      assert line == "execve(" + x + "): " + reason;
    }
    if x: string :| x != "" && line == "execve(" + x + "): " + reason {
      assert line == "execve(" + x + end;
      assert line[|line| - |end|..] == end && line[..7] == "execve(";
    }
  }

  lemma ExecveIff(message: string)
    requires '\n' !in message
    ensures IsExecveMessage(message) <==> IsExecveFailure(message)
  {
    var lines := RubyText.Pieces(message, '\n');
    assert |lines| == 1 && lines[0] == message by {
      RubyText.PiecesOfClean(message, '\n');
    }
    ExecveLineIff(message, "Exec format error");
    ExecveLineIff(message, "No such file or directory");
    ExecveLineIff(message, "Permission denied");
  }

  /** The value of the last entry with this key, if any; it does not end in a colon. */
  ghost predicate LastEntry(kvs: RubyText.KeyValues, key: string, value: Option<string>) {
    match value
    case None => forall i :: 0 <= i < |kvs| ==> kvs[i].0 != key
    case Some(v) =>
      && (v == "" || v[|v| - 1] != ':')
      && exists i :: 0 <= i < |kvs| && kvs[i] == (key, v) && forall j :: i < j < |kvs| ==> kvs[j].0 != key
  }

  lemma NothingDropped(printed: string, read: string)
    requires RubyText.ColonsDropped(printed, read) && (printed == "" || printed[|printed| - 1] != ':')
    ensures read == printed
  {
    if printed != "" {
      assert printed[|printed| - 1] != ':';
    }
  }

  lemma ReadEntry(kvs: RubyText.KeyValues, key: string, value: Option<string>)
    requires RubyText.Printable(kvs) && LastEntry(kvs, key, value)
    ensures RubyText.GetMetadata(RubyText.Print(kvs)).Ok?
    ensures Lookup(RubyText.GetMetadata(RubyText.Print(kvs)).value, key) == value
    ensures value.Some? ==> '\n' !in value.value
  {
    RubyText.MetadataRoundTrip(kvs);
    if value.Some? {
      var i :| 0 <= i < |kvs| && kvs[i] == (key, value.value) && forall j :: i < j < |kvs| ==> kvs[j].0 != key;
      NothingDropped(value.value, RubyText.GetMetadata(RubyText.Print(kvs)).value[key]);
    }
  }

  /** How a job of one run ends, by what its calls answered: judged, rejected, or with which exception. */
  lemma OneRunEnd(c: RunCalls, expected: Option<string>)
    ensures var end := Outcome([c], expected);
            && (end.Finished? <==> c.init.Ready? && c.compile.Compiled? && WasRead(c.execute) && c.cleanup.Removed?)
            && (end.Rejected? <==> c.init.Ready? && c.compile.CompileFailed? && c.cleanup.Removed?)
            && (end.Failed? ==>
                  && EndStatus(end) == 13
                  && (end.afterCe <==> c.init.Ready? && c.compile.CompileFailed?)
                  && end.message == if c.init.InitRaised? then c.init.message
                                    else if c.compile.CompileRaised? then c.compile.message
                                    else if c.compile.Compiled? && !WasRead(c.execute) then ReadMeta(c.execute).message
                                    else if c.cleanup.CleanupRaised? then c.cleanup.message
                                    else CLEANUP_FAILED)
            && (end.Rejected? ==> EndStatus(end) == 6)
            && (IsJudged(c) ==> EndStatus(end) == Own(c, expected))
  {
    RestStep([c], expected, None, [], [], PROCESS, None);
    if IsJudged(c) {
      var meta := MetaOf(c.execute);
      assert [c][1..] == [];
      RestEmpty(expected, MemoAfter(None, meta, expected, c.execute.stdout), [] + [meta.time], [] + [meta.memory],
                Own(c, expected), c.execute.stdout);
    }
  }

  /** The status id of a time-out, an exit code, a signal, a sandbox error, and a clean end. */
  ghost predicate IsStatusOf(id: int, status: Option<string>, message: Option<string>, exitSignal: Option<int>,
                             expected: Option<string>, stdout: Option<string>) {
    if status == Some("TO") then id == 5
    else if status == Some("RE") then id == 11
    else if status == Some("SG") then
      && 7 <= id <= 12 && id != 11
      && (id == 7 <==> exitSignal == Some(11)) && (id == 8 <==> exitSignal == Some(25))
      && (id == 9 <==> exitSignal == Some(8)) && (id == 10 <==> exitSignal == Some(6))
    else if status == Some("XX") then
      id == if message.Some? && IsExecveFailure(message.value) then 14 else 13
    else
      id == if expected.None? || (stdout.Some? && RubyText.SameLines(expected.value, stdout.value)) then 3 else 4
  }

  lemma CleanByValue(meta: Meta, expected: Option<string>, stdout: Option<string>)
    requires IsClean(meta)
    ensures RunStatus(meta, expected, stdout)
         == if expected.None? || (stdout.Some? && RubyText.SameLines(expected.value, stdout.value)) then 3 else 4
  {
    if expected.Some? && stdout.Some? {
      RubyText.StripEqualIff(expected.value, stdout.value);
    }
  }

  lemma NoEmptyFailure()
    ensures !IsExecveFailure("")
  {
  }

  lemma RunStatusByValue(meta: Meta, expected: Option<string>, stdout: Option<string>)
    requires meta.message.Some? ==> '\n' !in meta.message.value
    ensures IsStatusOf(RunStatus(meta, expected, stdout), meta.status, meta.message, meta.exitSignal, expected, stdout)
  {
    if IsClean(meta) {
      CleanByValue(meta, expected, stdout);
    } else if meta.status == Some("XX") {
      ExecveIff(meta.message.GetOr(""));
      if meta.message.None? {
        NoEmptyFailure();
      }
    }
  }

  lemma ReadMetadata(kvs: RubyText.KeyValues, status: Option<string>, message: Option<string>, numbers: Numbers,
                     stdout: Option<string>)
    requires RubyText.Printable(kvs) && LastEntry(kvs, "status", status) && LastEntry(kvs, "message", message)
    ensures ReadMeta(Executed(RubyText.Print(kvs), numbers, stdout))
         == Ok(Meta(status, numbers.time, numbers.memory, numbers.exitSignal, message))
    ensures message.Some? ==> '\n' !in message.value
  {
    ReadEntry(kvs, "status", status);
    ReadEntry(kvs, "message", message);
  }

  /**
   From the metadata and the output of the one run of a job to the status id in the row and the verdict on the
   platform: TLE, runtime error, sandbox error and a clean end with the right or a wrong output.
   */
  lemma OneRunVerdict(kvs: RubyText.KeyValues, status: Option<string>, message: Option<string>, numbers: Numbers,
                      stdout: Option<string>, expected: Option<string>)
    requires RubyText.Printable(kvs) && LastEntry(kvs, "status", status) && LastEntry(kvs, "message", message)
    ensures var c := RunCalls(Ready, Compiled, Executed(RubyText.Print(kvs), numbers, stdout), Removed);
            var id := EndStatus(Outcome([c], expected));
            var verdict := Grader.Judge0StatusToVerdict(id);
            && IsStatusOf(id, status, message, numbers.exitSignal, expected, stdout)
            && (status == Some("TO") ==> verdict == Grader.TLE)
            && (status in {Some("RE"), Some("SG")} ==> verdict == Grader.RE)
            && (status == Some("XX") ==> verdict == if id == 14 then Grader.RE else Grader.IE)
            && (status !in {Some("TO"), Some("RE"), Some("SG"), Some("XX")} ==>
                  verdict == if id == 3 then Grader.AC else Grader.WA)
  {
    var c := RunCalls(Ready, Compiled, Executed(RubyText.Print(kvs), numbers, stdout), Removed);
    ReadMetadata(kvs, status, message, numbers, stdout);
    OneRunEnd(c, expected);
    RunStatusByValue(MetaOf(c.execute), expected, stdout);
  }

  /***** a wrong second run *****/

  const REPORTED: RubyText.KeyValues := [("time", "1.000"), ("max-rss", "1")]
  const MEASURED := Numbers(Some(1.0), Some(1), None)

  function Printing(out: string): RunCalls {
    RunCalls(Ready, Compiled, Executed(RubyText.Print(REPORTED), MEASURED, Some(out)), Removed)
  }

  lemma PrintingIsClean(out: string)
    ensures EndedCleanly(Printing(out)) && MetaOf(Printing(out).execute).time == Some(1.0)
    ensures MetaOf(Printing(out).execute).memory == Some(1)
  {
    assert REPORTED[0].0 == "time" && REPORTED[1].0 == "max-rss" && "time" != "status" && "max-rss" != "status";
    PrintedStatus(REPORTED, MEASURED, Some(out));
  }

  /** There is a run that prints a given output and of which nothing bad is reported. */
  lemma CleanRun(out: string) returns (c: RunCalls)
    ensures EndedCleanly(c) && c.execute.stdout == Some(out)
    ensures MetaOf(c.execute).time == Some(1.0) && MetaOf(c.execute).memory == Some(1)
  {
    c := Printing(out);
    PrintingIsClean(out);
  }

  lemma DifferAB()
    ensures RubyText.Strip("a") != RubyText.Strip("b")
  {
    assert RubyText.Line("a", 0) == "a" && RubyText.Line("b", 0) == "b";
    RubyText.StripEqualIff("a", "b");
  }

  /** A clean second run with a wrong output, after an accepted and compared first one. */
  predicate WrongSecond(x: RunCalls, y: RunCalls, expected: Option<string>) {
    && expected.Some? && IsJudged(x) && IsAccepted(x, expected) && EndedCleanly(y) && Own(y, expected) == WA
    && !AverageRaises([MetaOf(x.execute).time, MetaOf(y.execute).time],
                      [MetaOf(x.execute).memory, MetaOf(y.execute).memory])
  }

  lemma SecondRun(x: RunCalls, y: RunCalls, expected: Option<string>, ts: seq<Option<real>>, ms: seq<Option<int>>)
    requires WrongSecond(x, y, expected) && ts == [MetaOf(x.execute).time] && ms == [MetaOf(x.execute).memory]
    ensures var end := Later([y], expected, ts, ms, AC, x.execute.stdout);
            EndStatus(end) == AC && end.Finished? && end.stdout == y.execute.stdout
    ensures EndStatus(Plain([y], expected, ts, ms, AC, x.execute.stdout)) == WA
  {
    var ts', ms' := ts + [MetaOf(y.execute).time], ms + [MetaOf(y.execute).memory];
    assert [y][1..] == [];
    RestEmpty(expected, None, ts', ms', AC, y.execute.stdout);
    RestEmpty(expected, None, ts', ms', WA, y.execute.stdout);
  }

  lemma TwoRuns(x: RunCalls, y: RunCalls, expected: Option<string>)
    requires WrongSecond(x, y, expected)
    ensures EndStatus(Intended([x, y], expected)) == WA
    ensures EndStatus(Outcome([x, y], expected)) == AC
    ensures Outcome([x, y], expected).Finished? && Outcome([x, y], expected).stdout == y.execute.stdout
  {
    var ts, ms := [MetaOf(x.execute).time], [MetaOf(x.execute).memory];
    MultiRunVerdict([x, y], expected);
    assert [x, y][1..] == [y];
    assert [] + ts == ts && [] + ms == ms;
    assert Intended([x, y], expected) == Plain([y], expected, ts, ms, AC, x.execute.stdout);
    SecondRun(x, y, expected, ts, ms);
  }

  lemma WrongSecondExists() returns (x: RunCalls, y: RunCalls)
    ensures WrongSecond(x, y, Some("a")) && x.execute.stdout == Some("a") && y.execute.stdout == Some("b")
  {
    x := CleanRun("a");
    y := CleanRun("b");
    DifferAB();
    CleanStatus(MetaOf(x.execute), Some("a"), Some("a"));
    CleanStatus(MetaOf(y.execute), Some("a"), Some("b"));
  }

  /**
   Two runs, the first printing what is expected and the second something else: stored as AC, with the second output.
   */
  lemma WrongSecondRunIsAccepted() returns (x: RunCalls, y: RunCalls)
    ensures x.execute.Executed? && x.execute.stdout == Some("a") && y.execute.Executed? && y.execute.stdout == Some("b")
    ensures EndStatus(Intended([x, y], Some("a"))) == WA
    ensures EndStatus(Outcome([x, y], Some("a"))) == AC
    ensures Outcome([x, y], Some("a")).Finished? && Outcome([x, y], Some("a")).stdout == Some("b")
  {
    x, y := WrongSecondExists();
    TwoRuns(x, y, Some("a"));
  }

  /***** on the platform *****/

  lemma {:induction false} RestNotCe(calls: seq<RunCalls>, expected: Option<string>, memo: Option<string>,
                                     times: seq<Option<real>>, memories: seq<Option<int>>,
                                     status: int, stdout: Option<string>)
    requires status != CE
    ensures var end := Rest(calls, expected, memo, times, memories, status, stdout);
            end.Finished? ==> end.status != CE
    decreases |calls|
  {
    if calls != [] && IsJudged(calls[0]) {
      var meta, out := MetaOf(calls[0].execute), calls[0].execute.stdout;
      var st := RunStatus(meta, expected, if memo.Some? then memo else out);
      RestNotCe(if st == AC then calls[1..] else [], expected, MemoAfter(memo, meta, expected, out),
                times + [meta.time], memories + [meta.memory], st, out);
    }
  }

  /** A rejected compilation shows as CE, any exception in the worker as IE, and neither shows otherwise. */
  lemma EndVerdict(calls: seq<RunCalls>, expected: Option<string>)
    requires calls != []
    ensures Grader.Judge0StatusToVerdict(EndStatus(Outcome(calls, expected))) == Grader.CE <==>
            Outcome(calls, expected).Rejected?
    ensures Outcome(calls, expected).Failed? ==>
            Grader.Judge0StatusToVerdict(EndStatus(Outcome(calls, expected))) == Grader.IE
  {
    RestNotCe(calls, expected, None, [], [], PROCESS, None);
  }

  /** Every job that ends gives its test case a final verdict. */
  lemma JobGivesFinalVerdict(calls: seq<RunCalls>, expected: Option<string>)
    requires calls != []
    ensures Grader.IsFinal(Grader.Judge0StatusToVerdict(EndStatus(Outcome(calls, expected))))
  {
    OutcomeTerminal(calls, expected);
  }

  /**
   The output has the expected lines up to white space at line ends and empty lines at the end. An empty expected
   output accepts any output; any other one, even a blank one, rejects a program that prints nothing.
   */
  ghost predicate HasExpectedLines(test: Judge0Batch.TestCase, stdout: Option<string>) {
    test.expectedOutput == ""
    || (stdout.Some? && RubyText.SameLines(test.expectedOutput, stdout.value))
  }

  /** All runs of a job were judged and ended cleanly, the first printed the expected lines, and no average raises. */
  ghost predicate Passes(test: Judge0Batch.TestCase, calls: seq<RunCalls>) {
    && calls != [] && HasExpectedLines(test, if IsJudged(calls[0]) then calls[0].execute.stdout else None)
    && (forall i :: 0 <= i < |calls| ==> EndedCleanly(calls[i]))
    && !AverageRaises(Times(calls), Memories(calls))
  }

  /** A run that ended cleanly is accepted for the expected output it was sent, or for the omitted empty one. */
  lemma CleanRunAccepted(test: Judge0Batch.TestCase, c: RunCalls)
    requires EndedCleanly(c)
    ensures IsAccepted(c, Judge0Batch.Truthy(test.expectedOutput)) <==> HasExpectedLines(test, c.execute.stdout)
  {
    CleanStatus(MetaOf(c.execute), Judge0Batch.Truthy(test.expectedOutput), c.execute.stdout);
    if c.execute.stdout.Some? {
      RubyText.StripEqualIff(test.expectedOutput, c.execute.stdout.value);
    }
  }

  /** A test case is accepted exactly when its job passes, for every outcome of every external call. */
  lemma CaseAcceptedIff(test: Judge0Batch.TestCase, calls: seq<RunCalls>)
    requires calls != []
    ensures Grader.Judge0StatusToVerdict(EndStatus(Outcome(calls, Judge0Batch.Truthy(test.expectedOutput))))
            == Grader.AC
            <==> Passes(test, calls)
  {
    AcceptedIff(calls, Judge0Batch.Truthy(test.expectedOutput));
    AcceptedEndsCleanly(calls[0], Judge0Batch.Truthy(test.expectedOutput));
    if EndedCleanly(calls[0]) {
      CleanRunAccepted(test, calls[0]);
    }
  }
}
