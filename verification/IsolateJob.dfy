/**
 The worker job: runs, verdicts, exceptions at every external call, cleanup and callback (isolate_job.rb, status.rb).
 */
module IsolateJob {
  import opened Wrappers
  import opened SubmissionRecord
  import RubyText

  /***** status ids *****/

  const QUEUE := 1
  const PROCESS := 2
  const AC := 3
  const WA := 4
  const TLE := 5
  const CE := 6
  const SIGSEGV := 7
  const SIGXFSZ := 8
  const SIGFPE := 9
  const SIGABRT := 10
  const NZEC := 11
  const OTHER := 12
  const BOXERR := 13
  const EXEERR := 14

  predicate IsTerminal(status: int) {
    AC <= status <= EXEERR
  }

  function FindRuntimeErrorByStatusCode(code: Option<int>): int {
    match code.GetOr(0)
    case 11 => SIGSEGV
    case 25 => SIGXFSZ
    case 8 => SIGFPE
    case 6 => SIGABRT
    case _ => OTHER
  }

  /***** what the outside world answers in one run *****/

  /** What the metadata file of one run says. */
  datatype Meta = Meta(status: Option<string>, time: Option<real>, memory: Option<int>,
                       exitSignal: Option<int>, message: Option<string>)

  datatype InitCall = Ready | InitRaised(message: string, boxCreated: bool)
  datatype CompileCall = Compiled | CompileFailed | CompileRaised(message: string)

  /** The numeric entries of the metadata file, after the casts of their columns. */
  datatype Numbers = Numbers(time: Option<real>, memory: Option<int>, exitSignal: Option<int>)

  /** Running the program leaves the text of the metadata file and the output file. */
  datatype ExecuteCall =
    | Executed(metadata: string, numbers: Numbers, stdout: Option<string>)
    | ExecuteRaised(message: string)

  datatype CleanupCall = Removed | Left | CleanupRaised(message: string, boxRemoved: bool)

  datatype RunCalls = RunCalls(init: InitCall, compile: CompileCall, execute: ExecuteCall, cleanup: CleanupCall)

  function Lookup(m: map<string, string>, key: string): Option<string> {
    if key in m then Some(m[key]) else None
  }

  /** Executing the program and reading its metadata: either may raise. */
  function ReadMeta(call: ExecuteCall): Result<Meta> {
    match call
    case ExecuteRaised(m) => Raised(m)
    case Executed(text, numbers, _) =>
      match RubyText.GetMetadata(text)
      case Raised(m) => Raised(m)
      case Ok(m) => Ok(Meta(Lookup(m, "status"), numbers.time, numbers.memory, numbers.exitSignal,
                            Lookup(m, "message")))
  }

  predicate WasRead(call: ExecuteCall) {
    ReadMeta(call).Ok?
  }

  function MetaOf(call: ExecuteCall): Meta
    requires WasRead(call)
  {
    ReadMeta(call).value
  }

  /***** the verdict of one run *****/

  function StripText(text: Option<string>): Option<string> {
    match text
    case None => None
    case Some(t) => Some(RubyText.Strip(t))
  }

  /** The program ran to its end: no time-out, signal, exit code or sandbox error was reported. */
  predicate IsClean(meta: Meta) {
    meta.status !in {Some("TO"), Some("SG"), Some("RE"), Some("XX")}
  }

  /** `determine_status`, with what the two getters return. */
  function DetermineStatus(meta: Meta, expected: Option<string>, stdout: Option<string>): int {
    if meta.status == Some("TO") then TLE
    else if meta.status == Some("SG") then FindRuntimeErrorByStatusCode(meta.exitSignal)
    else if meta.status == Some("RE") then NZEC
    else if meta.status == Some("XX") then BOXERR
    else if expected.None? || StripText(expected) == StripText(stdout) then AC
    else WA
  }

  predicate EndsWith(s: string, suffix: string) {
    |suffix| <= |s| && s[|s| - |suffix|..] == suffix
  }

  /** `/^execve\(.+\): <reason>$/` on one line. */
  predicate IsExecveLine(line: string, reason: string) {
    "execve(" <= line && EndsWith(line, "): " + reason) && |line| > |"execve("| + |"): " + reason|
  }

  predicate IsExecveMessage(message: string) {
    exists i :: 0 <= i < |RubyText.Pieces(message, '\n')|
                && (IsExecveLine(RubyText.Pieces(message, '\n')[i], "Exec format error")
                    || IsExecveLine(RubyText.Pieces(message, '\n')[i], "No such file or directory")
                    || IsExecveLine(RubyText.Pieces(message, '\n')[i], "Permission denied"))
  }

  /** The status `verify` sets. */
  function RunStatus(meta: Meta, expected: Option<string>, stdout: Option<string>): (status: int)
    ensures IsTerminal(status) && status != CE
    ensures !IsClean(meta) ==> status != AC && status != WA
  {
    var status := DetermineStatus(meta, expected, stdout);
    if status == BOXERR && IsExecveMessage(meta.message.GetOr("")) then EXEERR else status
  }

  /***** averages over the runs *****/

  const NIL_SUM := "nil in sum"
  const CLEANUP_FAILED := "Cleanup of sandbox failed."

  /** Adding up with `+` raises as soon as one of several summands is nil. */
  predicate SumRaises<T(==)>(xs: seq<Option<T>>) {
    |xs| >= 2 && None in xs
  }

  function SumTimes(xs: seq<Option<real>>): real {
    if xs == [] then 0.0 else SumTimes(xs[..|xs| - 1]) + xs[|xs| - 1].GetOr(0.0)
  }

  function SumMemories(xs: seq<Option<int>>): int {
    if xs == [] then 0 else SumMemories(xs[..|xs| - 1]) + xs[|xs| - 1].GetOr(0)
  }

  /** A float cast to the integer column: truncation towards zero. */
  function Truncate(sum: int, n: int): int
    requires n > 0
  {
    if sum >= 0 then sum / n else -((-sum) / n)
  }

  lemma DivisionRemainder(a: nat, n: int)
    requires n > 0
    ensures 0 <= a - a / n * n < n
  {
    assert a - a / n * n == a % n;
  }

  /** What truncation takes away is less than the divisor and has the sign of the dividend. */
  lemma TruncateTowardsZero(sum: int, n: int)
    requires n > 0
    ensures var rest := sum - Truncate(sum, n) * n;
            if sum >= 0 then 0 <= rest < n else -n < rest <= 0
  {
    DivisionRemainder(if sum >= 0 then sum else -sum, n);
    if sum < 0 {
      var q := (-sum) / n;
      assert (-q) * n == -(q * n);
    }
  }

  /** `inject(&:+)` from an accumulator on: nil has no `+` and cannot be added. */
  function Inject<T>(plus: (T, T) -> T, acc: Option<T>, xs: seq<Option<T>>): Result<Option<T>>
    decreases |xs|
  {
    if xs == [] then Ok(acc)
    else if acc.None? || xs[0].None? then Raised(NIL_SUM)
    else Inject(plus, Some(plus(acc.value, xs[0].value)), xs[1..])
  }

  lemma {:induction false} InjectAppend<T>(plus: (T, T) -> T, acc: Option<T>, xs: seq<Option<T>>, x: Option<T>)
    ensures Inject(plus, acc, xs + [x]) ==
            match Inject(plus, acc, xs)
            case Raised(m) => Raised(m)
            case Ok(sum) => if sum.None? || x.None? then Raised(NIL_SUM) else Ok(Some(plus(sum.value, x.value)))
    decreases |xs|
  {
    if xs != [] && acc.Some? && xs[0].Some? {
      InjectAppend(plus, Some(plus(acc.value, xs[0].value)), xs[1..], x);
      assert (xs + [x])[1..] == xs[1..] + [x];
    }
  }

  /** Ruby's sum of the times raises exactly when one of several is nil; otherwise, nil read as 0, it is this sum. */
  lemma {:induction false} TimesInjected(xs: seq<Option<real>>)
    requires xs != []
    ensures Inject((a: real, b: real) => a + b, xs[0], xs[1..]).Raised? <==> SumRaises(xs)
    ensures !SumRaises(xs) ==>
              Inject((a: real, b: real) => a + b, xs[0], xs[1..]).value ==
              if xs == [None] then None else Some(SumTimes(xs))
    ensures xs == [None] ==> SumTimes(xs) == 0.0
  {
    var n := |xs| - 1;
    if n > 0 {
      TimesInjected(xs[..n]);
      InjectAppend((a: real, b: real) => a + b, xs[0], xs[1..n], xs[n]);
      assert xs[..n][1..] == xs[1..n] && xs[1..n] + [xs[n]] == xs[1..];
      assert xs == xs[..n] + [xs[n]];
    }
  }

  /** The same of the memories. */
  lemma {:induction false} MemoriesInjected(xs: seq<Option<int>>)
    requires xs != []
    ensures Inject((a: int, b: int) => a + b, xs[0], xs[1..]).Raised? <==> SumRaises(xs)
    ensures !SumRaises(xs) ==>
              Inject((a: int, b: int) => a + b, xs[0], xs[1..]).value ==
              if xs == [None] then None else Some(SumMemories(xs))
    ensures xs == [None] ==> SumMemories(xs) == 0
  {
    var n := |xs| - 1;
    if n > 0 {
      MemoriesInjected(xs[..n]);
      InjectAppend((a: int, b: int) => a + b, xs[0], xs[1..n], xs[n]);
      assert xs[..n][1..] == xs[1..n] && xs[1..n] + [xs[n]] == xs[1..];
      assert xs == xs[..n] + [xs[n]];
    }
  }

  /***** the job as a function of the outside world *****/

  /** How the body of `perform` ends; `afterCe` tells that a compilation error had been stored before. */
  datatype End =
    | Finished(status: int, times: seq<Option<real>>, memories: seq<Option<int>>, stdout: Option<string>)
    | Rejected
    | Failed(message: string, afterCe: bool)

  /** How one run ends: an exception, a stored compilation error, or a verdict. */
  datatype OneRun = RunFailed(message: string, afterCe: bool) | RunRejected | RunJudged

  function CleanupEnd(call: CleanupCall, afterCe: bool, end: OneRun): OneRun {
    match call
    case Removed => end
    case Left => RunFailed(CLEANUP_FAILED, afterCe)
    case CleanupRaised(m, _) => RunFailed(m, afterCe)
  }

  function RunEnd(c: RunCalls): OneRun {
    if c.init.InitRaised? then RunFailed(c.init.message, false)
    else match c.compile
      case CompileRaised(m) => RunFailed(m, false)
      case CompileFailed => CleanupEnd(c.cleanup, true, RunRejected)
      case Compiled =>
        if WasRead(c.execute) then CleanupEnd(c.cleanup, false, RunJudged)
        else RunFailed(ReadMeta(c.execute).message, false)
  }

  /** The stdout getter is called only to compare with an expected output. */
  function MemoAfter(memo: Option<string>, meta: Meta, expected: Option<string>, out: Option<string>): Option<string> {
    if IsClean(meta) && expected.Some? && memo.None? then out else memo
  }

  /** The runs still to do, with what earlier runs left: the memo of the stdout getter and the measurements. */
  function Rest(calls: seq<RunCalls>, expected: Option<string>, memo: Option<string>,
                times: seq<Option<real>>, memories: seq<Option<int>>, status: int, stdout: Option<string>): End
    decreases |calls|
  {
    if calls == [] then
      if SumRaises(times) || SumRaises(memories) then Failed(NIL_SUM, false)
      else Finished(status, times, memories, stdout)
    else
      match RunEnd(calls[0])
      case RunFailed(m, afterCe) => Failed(m, afterCe)
      case RunRejected => Rejected
      case RunJudged =>
        var meta, out := MetaOf(calls[0].execute), calls[0].execute.stdout;
        var st := RunStatus(meta, expected, if memo.Some? then memo else out);
        Rest(if st == AC then calls[1..] else [], expected, MemoAfter(memo, meta, expected, out),
             times + [meta.time], memories + [meta.memory], st, out)
  }

  lemma RestStep(calls: seq<RunCalls>, expected: Option<string>, memo: Option<string>,
                 times: seq<Option<real>>, memories: seq<Option<int>>, status: int, stdout: Option<string>)
    requires calls != []
    ensures var rest := Rest(calls, expected, memo, times, memories, status, stdout);
            match RunEnd(calls[0])
            case RunFailed(m, afterCe) => rest == Failed(m, afterCe)
            case RunRejected => rest == Rejected
            case RunJudged =>
              var meta, out := MetaOf(calls[0].execute), calls[0].execute.stdout;
              var st := RunStatus(meta, expected, if memo.Some? then memo else out);
              rest == Rest(if st == AC then calls[1..] else [], expected, MemoAfter(memo, meta, expected, out),
                           times + [meta.time], memories + [meta.memory], st, out)
  {
  }

  function Outcome(calls: seq<RunCalls>, expected: Option<string>): End {
    Rest(calls, expected, None, [], [], PROCESS, None)
  }

  function EndStatus(end: End): int {
    match end
    case Finished(status, _, _, _) => status
    case Rejected => CE
    case Failed(_, _) => BOXERR
  }

  /***** the job as the code runs it *****/

  /** The columns that matter here. */
  datatype Row = Row(statusId: int, time: Option<real>, memory: Option<int>, message: Option<string>,
                     stdout: Option<Encoded>)

  function Copies(row: Row, n: nat): seq<Row> {
    seq(n, _ => row)
  }

  /** How many deliveries are tried from attempt `i` on. */
  function Tries(hasUrl: bool, maxTries: nat, responds: nat -> bool, i: nat): nat
    decreases maxTries - i
  {
    if !hasUrl || i >= maxTries then 0
    else if responds(i) then 1
    else 1 + Tries(hasUrl, maxTries, responds, i + 1)
  }

  lemma OutcomeTerminal(calls: seq<RunCalls>, expected: Option<string>)
    requires calls != []
    ensures IsTerminal(EndStatus(Outcome(calls, expected)))
  {
    RestTerminal(calls, expected, None, [], [], PROCESS, None);
  }

  class Job {
    var statusId: int
    var time: Option<real>
    var memory: Option<int>
    var message: Option<string>
    const stdout: Attribute
    const expectedOutput: Attribute
    /** The row in the database, and the statuses written to it so far. */
    var stored: Row
    ghost var written: seq<int>
    /** Whether the sandbox of this submission exists. */
    var box: bool
    /** The bodies sent to the callback URL. */
    var puts: seq<Row>

    /** `Submission.find`: a fresh record of a queued row. */
    constructor (expected: Option<string>)
      ensures fresh(stdout) && fresh(expectedOutput) && stdout != expectedOutput
      ensures stdout.State() == Loaded(None) && expectedOutput.State() == Loaded(expected)
      ensures written == [] && !box && puts == []
    {
      statusId, time, memory, message := QUEUE, None, None, None;
      stdout := new Attribute(None);
      expectedOutput := new Attribute(expected);
      stored := Row(QUEUE, None, None, None, None);
      written, box, puts := [], false, [];
    }

    ghost function Record(): Row
      reads this, stdout
    {
      Row(statusId, time, memory, message, stdout.column)
    }

    /** The expected output can be read whatever has been read before. */
    ghost predicate Expects(expected: Option<string>)
      reads this, expectedOutput
    {
      expectedOutput.column == Encode(expected) && (expectedOutput.decoded.None? || expectedOutput.decoded == expected)
    }

    method Save()
      modifies this`stored, this`written
      ensures stored == Record() && written == old(written) + [statusId]
    {
      stored := Row(statusId, time, memory, message, stdout.column);
      written := written + [statusId];
    }

    method InitializeWorkdir(call: InitCall) returns (r: Result<()>)
      modifies this`box
      ensures r.Ok? <==> call.Ready?
      ensures call.InitRaised? ==> r == Raised(call.message)
      ensures r.Ok? ==> box
    {
      match call {
        case Ready =>
          box := true;
          r := Ok(());
        case InitRaised(m, created) =>
          box := box || created;
          r := Raised(m);
      }
    }

    /** Answers true for success; on failure the compilation error is stored at once. */
    method Compile(call: CompileCall) returns (r: Result<bool>)
      modifies this`statusId, this`time, this`memory, this`message, this`stored, this`written, stdout`column
      ensures call.Compiled? ==> r == Ok(true)
      ensures call.CompileFailed? ==> r == Ok(false) && stored == Record() == Row(CE, None, None, None, None)
                                      && written == old(written) + [CE]
      ensures call.CompileRaised? ==> r == Raised(call.message)
      ensures !call.CompileFailed? ==>
                written == old(written) && stored == old(stored) && Record() == old(Record())
    {
      match call {
        case Compiled => r := Ok(true);
        case CompileRaised(m) => r := Raised(m);
        case CompileFailed =>
          time, memory, message := None, None, None;
          stdout.Set(None);
          statusId := CE;
          Save();
          r := Ok(false);
      }
    }

    /** `determine_status` through the getters. */
    method DetermineStatusOf(meta: Meta, ghost expected: Option<string>) returns (status: int)
      requires stdout != expectedOutput && Expects(expected)
      modifies stdout`decoded, expectedOutput`decoded
      ensures Expects(expected)
      ensures status == DetermineStatus(meta, expected, Memoised(old(stdout.decoded), stdout.column))
      ensures stdout.decoded == MemoAfter(old(stdout.decoded), meta, expected, Decode(stdout.column))
    {
      DecodeEncode(expected);
      if meta.status == Some("TO") {
        return TLE;
      } else if meta.status == Some("SG") {
        return FindRuntimeErrorByStatusCode(meta.exitSignal);
      } else if meta.status == Some("RE") {
        return NZEC;
      } else if meta.status == Some("XX") {
        return BOXERR;
      }
      var wanted := expectedOutput.Get();
      if wanted.None? {
        return AC;
      }
      wanted := expectedOutput.Get();
      var got := stdout.Get();
      status := if StripText(wanted) == StripText(got) then AC else WA;
    }

    /** The record after a judged run. */
    ghost predicate Judged(call: ExecuteCall, expected: Option<string>, memo: Option<string>)
      requires WasRead(call)
      reads this, stdout
    {
      var meta := MetaOf(call);
      && Record() == Row(RunStatus(meta, expected, if memo.Some? then memo else call.stdout),
                         meta.time, meta.memory, meta.message, Encode(call.stdout))
      && stdout.decoded == MemoAfter(memo, meta, expected, call.stdout)
    }

    method Verify(call: ExecuteCall, ghost expected: Option<string>) returns (r: Result<()>)
      requires stdout != expectedOutput && Expects(expected)
      modifies this`statusId, this`time, this`memory, this`message, stdout, expectedOutput`decoded
      ensures Expects(expected)
      ensures !WasRead(call) ==> r == Raised(ReadMeta(call).message) && Record() == old(Record())
      ensures WasRead(call) ==> r == Ok(()) && Judged(call, expected, old(stdout.decoded))
    {
      match call {
        case ExecuteRaised(m) => r := Raised(m);
        case Executed(text, numbers, out) =>
          var metadata := RubyText.GetMetadata(text);
          if metadata.Raised? {
            return Raised(metadata.message);
          }
          DecodeEncode(out);
          time := numbers.time;
          memory := numbers.memory;
          stdout.Set(out);
          message := Lookup(metadata.value, "message");
          statusId := DetermineStatusOf(MetaOf(call), expected);
          if statusId == BOXERR && IsExecveMessage(message.GetOr("")) {
            statusId := EXEERR;
          }
          r := Ok(());
      }
    }

    method Cleanup(call: CleanupCall, raiseException: bool) returns (r: Result<()>)
      modifies this`box
      ensures call.Removed? ==> r == Ok(()) && !box
      ensures call.Left? ==> r == (if raiseException then Raised(CLEANUP_FAILED) else Ok(()))
      ensures call.CleanupRaised? ==> r == Raised(call.message)
    {
      match call {
        case Removed =>
          box := false;
          r := Ok(());
        case Left => r := if raiseException then Raised(CLEANUP_FAILED) else Ok(());
        case CleanupRaised(m, removed) =>
          box := box && !removed;
          r := Raised(m);
      }
    }

    /** One pass of the run loop; false means a compilation error was stored. */
    method RunOnce(c: RunCalls, ghost expected: Option<string>) returns (r: Result<bool>)
      requires stdout != expectedOutput && Expects(expected) && !box
      modifies this`statusId, this`time, this`memory, this`message, this`stored, this`written, this`box, stdout,
               expectedOutput`decoded
      ensures RunEnd(c).RunFailed? ==> r == Raised(RunEnd(c).message)
                                       && written == old(written) + if RunEnd(c).afterCe then [CE] else []
      ensures RunEnd(c).RunRejected? ==> r == Ok(false) && !box && written == old(written) + [CE]
                                         && stored == Record() == Row(CE, None, None, None, None)
      ensures RunEnd(c).RunJudged? ==>
                && r == Ok(true) && !box && written == old(written) && Expects(expected)
                && Judged(c.execute, expected, old(stdout.decoded))
    {
      var ready := InitializeWorkdir(c.init);
      if ready.Raised? {
        return Raised(ready.message);
      }
      var compiled := Compile(c.compile);
      if compiled.Raised? {
        return compiled;
      }
      if compiled.value {
        var verified := Verify(c.execute, expected);
        if verified.Raised? {
          return Raised(verified.message);
        }
      }
      var cleaned := Cleanup(c.cleanup, true);
      r := if cleaned.Raised? then Raised(cleaned.message) else compiled;
    }

    /** Averages over the runs, then the save that stores the verdict. */
    method StoreAverages(times: seq<Option<real>>, memories: seq<Option<int>>) returns (r: Result<()>)
      requires |times| == |memories| && times != []
      modifies this`time, this`memory, this`stored, this`written
      ensures SumRaises(times) || SumRaises(memories) ==> r == Raised(NIL_SUM) && written == old(written)
      ensures !SumRaises(times) && !SumRaises(memories) ==>
                && r == Ok(()) && written == old(written) + [statusId]
                && stored == Record() == old(Record()).(time := Some(SumTimes(times) / |times| as real),
                                                        memory := Some(Truncate(SumMemories(memories), |memories|)))
    {
      if SumRaises(times) || SumRaises(memories) {
        return Raised(NIL_SUM);
      }
      time := Some(SumTimes(times) / |times| as real);
      memory := Some(Truncate(SumMemories(memories), |memories|));
      Save();
      r := Ok(());
    }

    /** The run loop; true means that it reached its end with a verdict. */
    method RunLoop(calls: seq<RunCalls>, ghost expected: Option<string>)
      returns (r: Result<bool>, times: seq<Option<real>>, memories: seq<Option<int>>, ghost out: Option<string>)
      requires stdout != expectedOutput && Expects(expected) && stdout.decoded == None && calls != []
      requires statusId == PROCESS && !box
      modifies this`statusId, this`time, this`memory, this`message, this`stored, this`written, this`box, stdout,
               expectedOutput`decoded
      ensures r.Raised? ==> var end := Outcome(calls, expected);
                            end.Failed? && r.message == end.message
                            && written == old(written) + if end.afterCe then [CE] else []
      ensures r == Ok(false) ==> Outcome(calls, expected) == Rejected && !box && written == old(written) + [CE]
                                 && stored == Record() == Row(CE, None, None, None, None)
      ensures r == Ok(true) ==> !box && written == old(written) && |times| == |memories| && times != []
                                && stdout.column == Encode(out)
                                && Outcome(calls, expected)
                                   == Rest([], expected, stdout.decoded, times, memories, statusId, out)
    {
      times, memories, out := [], [], None;
      var left := calls;
      while left != []
        invariant |times| == |memories| && (times == [] ==> left != [])
        invariant Expects(expected) && !box && written == old(written)
        invariant times != [] ==> stdout.column == Encode(out)
        invariant Outcome(calls, expected) == Rest(left, expected, stdout.decoded, times, memories, statusId, out)
        decreases |left|
      {
        var c := left[0];
        RestStep(left, expected, stdout.decoded, times, memories, statusId, out);
        var judged := RunOnce(c, expected);
        if judged.Raised? {
          return Raised(judged.message), times, memories, out;
        }
        if !judged.value {
          return Ok(false), times, memories, out;
        }
        out := c.execute.stdout;
        times := times + [time];
        memories := memories + [memory];
        left := if statusId == AC then left[1..] else [];
      }
      r := Ok(true);
    }

    /** The body of `perform` up to its rescue clause. */
    method RunAll(calls: seq<RunCalls>, ghost expected: Option<string>) returns (r: Result<()>)
      requires stdout != expectedOutput && Expects(expected) && stdout.decoded == None && calls != []
      requires statusId == PROCESS && !box
      modifies this`statusId, this`time, this`memory, this`message, this`stored, this`written, this`box, stdout,
               expectedOutput`decoded
      ensures match Outcome(calls, expected)
              case Failed(m, afterCe) => r == Raised(m) && written == old(written) + (if afterCe then [CE] else [])
              case Rejected =>
                && r == Ok(()) && !box && written == old(written) + [CE]
                && stored == Record() == Row(CE, None, None, None, None)
              case Finished(status, times, memories, out) =>
                && r == Ok(()) && !box && written == old(written) + [status] && stored == Record()
                && |times| == |memories| && times != []
                && stored.statusId == status && stored.stdout == Encode(out)
                && stored.time == Some(SumTimes(times) / |times| as real)
                && stored.memory == Some(Truncate(SumMemories(memories), |memories|))
    {
      var reached, times, memories, out := RunLoop(calls, expected);
      if reached.Raised? {
        return Raised(reached.message);
      }
      if !reached.value {
        return Ok(());
      }
      r := StoreAverages(times, memories);
    }

    /** Tries to deliver until a response arrives; any response ends the loop. */
    method CallCallback(hasUrl: bool, maxTries: nat, responds: nat -> bool)
      modifies this`puts
      ensures puts == old(puts) + Copies(Record(), Tries(hasUrl, maxTries, responds, 0))
    {
      var i := 0;
      if hasUrl {
        var body := Row(statusId, time, memory, message, stdout.column);
        while i < maxTries
          invariant 0 <= i <= maxTries && body == Record()
          invariant puts == old(puts) + Copies(body, i)
          invariant Tries(hasUrl, maxTries, responds, 0) == i + Tries(hasUrl, maxTries, responds, i)
        {
          assert Copies(body, i + 1) == Copies(body, i) + [body];
          puts := puts + [body];
          if responds(i) {
            break;
          }
          i := i + 1;
        }
      }
    }

    /** The whole job, from the found submission to the callback. */
    method Perform(calls: seq<RunCalls>, rescue: CleanupCall, hasUrl: bool, maxTries: nat, responds: nat -> bool,
                   ghost expected: Option<string>)
      returns (r: Result<()>)
      requires stdout != expectedOutput && stdout.State() == Loaded(None) && expectedOutput.State() == Loaded(expected)
      requires written == [] && !box && puts == [] && calls != []
      modifies this, stdout, expectedOutput
      // a terminal status, the one the outside world determines
      ensures stored.statusId == EndStatus(Outcome(calls, expected)) && 3 <= stored.statusId <= 14
      // the terminal status is written once, except when the cleanup after a compilation error fails
      ensures written == match Outcome(calls, expected)
                         case Failed(_, afterCe) => if afterCe then [2, 6, 13] else [2, 13]
                         case Rejected => [2, 6]
                         case Finished(status, _, _, _) => [2, status]
      // an end without exception leaves no sandbox behind
      ensures !Outcome(calls, expected).Failed? ==> !box
      ensures box || Outcome(calls, expected).Failed? ==> stored.statusId == 13
      ensures Outcome(calls, expected).Failed? ==> stored.message == Some(Outcome(calls, expected).message)
      // a finished job stores the output of its last run and the averages, a rejected one stores neither
      ensures match Outcome(calls, expected)
              case Finished(_, times, memories, out) =>
                && |times| == |memories| && times != [] && stored.stdout == Encode(out)
                && stored.time == Some(SumTimes(times) / |times| as real)
                && stored.memory == Some(Truncate(SumMemories(memories), |memories|))
              case Rejected => stored == Row(6, None, None, None, None)
              case Failed(_, _) => true
      // one callback sequence, carrying the stored row
      ensures puts == Copies(stored, Tries(hasUrl, maxTries, responds, 0))
      ensures r.Raised? ==> Outcome(calls, expected).Failed? && rescue.CleanupRaised?
    {
      statusId := PROCESS;
      Save();
      OutcomeTerminal(calls, expected);
      var body := RunAll(calls, expected);
      r := Ok(());
      if body.Raised? {
        message := Some(body.message);
        statusId := BOXERR;
        Save();
        r := Cleanup(rescue, false);
      }
      CallCallback(hasUrl, maxTries, responds);
    }
  }

  /** The tries stop at the first response, and otherwise when they run out. */
  lemma {:induction false} TriesMeaning(maxTries: nat, responds: nat -> bool, i: nat)
    requires i <= maxTries
    ensures var n := Tries(true, maxTries, responds, i);
            && i + n <= maxTries
            && (forall j :: i <= j < i + n - 1 ==> !responds(j))
            && (i + n < maxTries ==> n > 0 && responds(i + n - 1))
    ensures Tries(false, maxTries, responds, i) == 0
    decreases maxTries - i
  {
    if i < maxTries && !responds(i) {
      TriesMeaning(maxTries, responds, i + 1);
    }
  }

  lemma {:induction false} RestTerminal(calls: seq<RunCalls>, expected: Option<string>, memo: Option<string>,
                                        times: seq<Option<real>>, memories: seq<Option<int>>,
                                        status: int, stdout: Option<string>)
    requires calls != [] || IsTerminal(status)
    ensures IsTerminal(EndStatus(Rest(calls, expected, memo, times, memories, status, stdout)))
    decreases |calls|
  {
    if calls != [] && RunEnd(calls[0]).RunJudged? {
      var meta, out := MetaOf(calls[0].execute), calls[0].execute.stdout;
      var st := RunStatus(meta, expected, if memo.Some? then memo else out);
      RestTerminal(if st == AC then calls[1..] else [], expected, MemoAfter(memo, meta, expected, out),
                   times + [meta.time], memories + [meta.memory], st, out);
    }
  }
}
