/**
 The command line `buildFlinkXExecutorCmd` assembles to launch a FlinkX job:
 the launcher for the operating system, the FlinkX script, the temporary job
 file, and the per-run log file `logHome/<jobId><timestamp>.out`. The
 operating system test, the log directory setting and the clock reading are
 inputs.
 */
module FlinkXCommand {
  import opened JavaInt
  import opened Optional

  /** The two launcher strings, `Constants.CMDWINDOW` and `Constants.CMDLINUX`. */
  datatype Launchers = Launchers(cmdWindow: string, cmdLinux: string)

  predicate IsDigit(c: char)
  {
    '0' <= c <= '9'
  }

  predicate AllDigits(s: string)
  {
    forall i :: 0 <= i < |s| ==> IsDigit(s[i])
  }

  function DigitChar(d: nat): (c: char)
    requires d < 10
    ensures IsDigit(c) && c as int - '0' as int == d
  {
    ('0' as int + d) as char
  }

  /** The decimal digits of `n`, most significant first, without leading zeros. */
  function NatToDecimal(n: nat): (s: string)
    ensures |s| >= 1 && AllDigits(s)
    ensures |s| > 1 ==> s[0] != '0'
    decreases n
  {
    if n < 10 then [DigitChar(n)] else NatToDecimal(n / 10) + [DigitChar(n % 10)]
  }

  /** Java's rendering of an `int` or `long` in string concatenation. */
  function IntToDecimal(n: int): string
  {
    if n < 0 then "-" + NatToDecimal(-n) else NatToDecimal(n)
  }

  /** The value of a string of decimal digits. */
  function ParseNat(s: string): nat
    requires AllDigits(s)
    decreases |s|
  {
    if s == [] then 0 else ParseNat(s[..|s| - 1]) * 10 + (s[|s| - 1] as int - '0' as int)
  }

  /** Reads an optionally negative decimal number; anything else is `None`. */
  function ParseInt(s: string): Option<int>
  {
    if |s| >= 2 && s[0] == '-' && AllDigits(s[1..]) then Some(-(ParseNat(s[1..]) as int))
    else if |s| >= 1 && AllDigits(s) then Some(ParseNat(s))
    else None
  }

  lemma {:induction false} ParseNatOfDecimal(n: nat)
    ensures ParseNat(NatToDecimal(n)) == n
    decreases n
  {
    if n >= 10 {
      var s := NatToDecimal(n / 10);
      ParseNatOfDecimal(n / 10);
      assert (s + [DigitChar(n % 10)])[..|s|] == s;
    }
  }

  /** Reading back the decimal rendering of a number gives the number. */
  lemma ParseIntOfDecimal(n: int)
    ensures ParseInt(IntToDecimal(n)) == Some(n)
  {
    if n < 0 {
      var s := "-" + NatToDecimal(-n);
      assert s[1..] == NatToDecimal(-n);
      ParseNatOfDecimal(-n);
    } else {
      ParseNatOfDecimal(n);
    }
  }

  /** The log file of one run: `logHome + "/" + jobId + "" + timestamp + ".out"`. */
  function LogFileName(logHome: string, jobId: Int32, timestamp: Int64): string
  {
    logHome + "/" + IntToDecimal(jobId) + IntToDecimal(timestamp) + ".out"
  }

  /**
   Splits a log file name under `logHome` back into job id and timestamp,
   given the number of characters of the timestamp.
   */
  function SplitLogFileName(logHome: string, name: string, timestampLength: nat): Option<(int, int)>
  {
    var head := logHome + "/";
    if |name| < |head| + timestampLength + 4 || name[..|head|] != head || name[|name| - 4..] != ".out" then None
    else
      var body := name[|head|..|name| - 4];
      var job := ParseInt(body[..|body| - timestampLength]);
      var ts := ParseInt(body[|body| - timestampLength..]);
      if job.Some? && ts.Some? then Some((job.value, ts.value)) else None
  }

  /** Knowing how long the timestamp is, the log file name gives back the job id and timestamp. */
  lemma LogFileNameRoundTrip(logHome: string, jobId: Int32, timestamp: Int64)
    ensures SplitLogFileName(logHome, LogFileName(logHome, jobId, timestamp), |IntToDecimal(timestamp)|)
            == Some((jobId as int, timestamp as int))
  {
    var head, j, t := logHome + "/", IntToDecimal(jobId), IntToDecimal(timestamp);
    var name := LogFileName(logHome, jobId, timestamp);
    assert name == head + (j + t) + ".out";
    assert name[..|head|] == head;
    assert name[|name| - 4..] == ".out";
    var body := name[|head|..|name| - 4];
    assert body == j + t;
    assert body[..|body| - |t|] == j;
    assert body[|body| - |t|..] == t;
    ParseIntOfDecimal(jobId);
    ParseIntOfDecimal(timestamp);
  }

  /** Two runs whose timestamps have the same length get the same log file only if they agree. */
  lemma LogFileNameInjective(logHome: string, jobId1: Int32, timestamp1: Int64, jobId2: Int32, timestamp2: Int64)
    requires |IntToDecimal(timestamp1)| == |IntToDecimal(timestamp2)|
    requires LogFileName(logHome, jobId1, timestamp1) == LogFileName(logHome, jobId2, timestamp2)
    ensures jobId1 == jobId2 && timestamp1 == timestamp2
  {
    LogFileNameRoundTrip(logHome, jobId1, timestamp1);
    LogFileNameRoundTrip(logHome, jobId2, timestamp2);
  }

  /**
   Job id and timestamp are written with nothing between them, so without the
   timestamp's length the name is ambiguous: job 1 at 23 ms and job 12 at 3 ms
   share a log file.
   */
  lemma LogFileNameAmbiguousAcrossLengths(logHome: string)
    ensures LogFileName(logHome, 1, 23) == LogFileName(logHome, 12, 3)
  {
  }

  /**
   `buildFlinkXExecutorCmd`: collects the command in a list, element by
   element, and returns it as an array of four strings. A missing (null) log
   directory makes `new File(logHome)` throw before anything is returned;
   that is `None` here.
   */
  method BuildFlinkXExecutorCmd(
    launchers: Launchers, isWindows: bool, flinkXShPath: string, tmpFilePath: string,
    jobId: Int32, logHome: Option<string>, timestamp: Int64)
    returns (result: Option<seq<string>>)
    ensures result.None? <==> logHome.None?
    ensures result.Some? ==> |result.value| == 4
    ensures result.Some? ==> result.value[0] == if isWindows then launchers.cmdWindow else launchers.cmdLinux
    ensures result.Some? ==> result.value[1] == flinkXShPath && result.value[2] == tmpFilePath
    ensures result.Some? ==> result.value[3] == LogFileName(logHome.value, jobId, timestamp)
  {
    var cmdArr: seq<string> := [];
    if isWindows {
      cmdArr := cmdArr + [launchers.cmdWindow];
      cmdArr := cmdArr + [flinkXShPath];
      cmdArr := cmdArr + [tmpFilePath];
    } else {
      cmdArr := cmdArr + [launchers.cmdLinux];
      cmdArr := cmdArr + [flinkXShPath];
      cmdArr := cmdArr + [tmpFilePath];
    }
    if logHome.None? {
      // new File(null) throws NullPointerException
      return None;
    }
    var home := logHome.value;
    cmdArr := cmdArr + [home + "/" + IntToDecimal(jobId) + "" + IntToDecimal(timestamp) + ".out"];
    result := Some(cmdArr);
  }
}
