/** How the runner captures a process's output up to a hard limit, and what it publishes of it. */
module OutputCapture {
  import opened Prelude
  import opened Utf8
  import opened Tasks
  import Decimals
  import Evidence

  const ABSOLUTE_CAPTURE_LIMIT := 16 * 1024 * 1024
  const PUBLIC_PREVIEW_LIMIT := 262_144
  const PROCESS_ERROR := "\n[PROCESS ERROR: executable unavailable]\n"

  function Min(a: nat, b: nat): nat {
    if a < b then a else b
  }

  function Max(a: nat, b: nat): nat {
    if a < b then b else a
  }

  // ----- capture -----

  function Concat(chunks: seq<seq<Byte>>): seq<Byte> {
    if chunks == [] then [] else Concat(chunks[..|chunks| - 1]) + chunks[|chunks| - 1]
  }

  /** At most the first `limit` bytes. */
  function First(bytes: seq<Byte>, limit: nat): seq<Byte> {
    if |bytes| <= limit then bytes else bytes[..limit]
  }

  class CapturedStream {
    var chunks: seq<seq<Byte>>
    var bytes: nat
    var retainedBytes: nat
    var exceeded: bool

    constructor ()
      ensures Captures([], 0) && !exceeded
    {
      chunks, bytes, retainedBytes, exceeded := [], 0, 0, false;
    }

    /** The stream has seen exactly `arrived` under the hard limit. */
    ghost predicate Captures(arrived: seq<Byte>, hardLimit: nat)
      reads this
    {
      && bytes == |arrived|
      && Concat(chunks) == First(arrived, hardLimit)
      && retainedBytes == |Concat(chunks)|
      && (exceeded <==> bytes > hardLimit)
    }

    /** `appendChunk`; the process group is terminated on the chunk that crosses the limit, and only then. */
    method AppendChunk(ghost arrived: seq<Byte>, chunk: seq<Byte>, hardLimit: nat) returns (terminate: bool)
      requires Captures(arrived, hardLimit)
      modifies this
      ensures Captures(arrived + chunk, hardLimit)
      ensures terminate <==> !old(exceeded) && exceeded
    {
      bytes := bytes + |chunk|;
      if exceeded {
        assert First(arrived + chunk, hardLimit) == First(arrived, hardLimit);
        return false;
      }
      var remaining := hardLimit - retainedBytes;
      if remaining > 0 {
        var retained := if |chunk| <= remaining then chunk else chunk[..remaining];
        chunks := chunks + [retained];
        retainedBytes := retainedBytes + |retained|;
        assert chunks[..|chunks| - 1] == old(chunks);
        assert First(arrived + chunk, hardLimit) == arrived + retained;
      } else {
        assert First(arrived + chunk, hardLimit) == arrived;
      }
      if |chunk| > remaining {
        exceeded := true;
        return true;
      }
      return false;
    }
  }

  datatype Captured = Captured(retained: seq<Byte>, bytes: nat, exceeded: bool)

  /**
   * Whatever chunks arrive, what is kept is exactly the first `hardLimit` bytes of them, the limit counts as
   * exceeded exactly when more than that arrived, and the process is then terminated once.
   */
  method Capture(arriving: seq<seq<Byte>>, hardLimit: nat) returns (c: Captured, terminations: nat)
    ensures c.retained == First(Concat(arriving), hardLimit)
    ensures c.bytes == |Concat(arriving)|
    ensures c.exceeded <==> |Concat(arriving)| > hardLimit
    ensures terminations == if c.exceeded then 1 else 0
  {
    var stream := new CapturedStream();
    terminations := 0;
    for i := 0 to |arriving|
      invariant fresh(stream) && stream.Captures(Concat(arriving[..i]), hardLimit)
      invariant terminations == if stream.exceeded then 1 else 0
    {
      assert arriving[..i + 1][..i] == arriving[..i];
      var terminate := stream.AppendChunk(Concat(arriving[..i]), arriving[i], hardLimit);
      if terminate {
        terminations := terminations + 1;
      }
    }
    assert arriving[..|arriving|] == arriving;
    c := Captured(Concat(stream.chunks), stream.bytes, stream.exceeded);
  }

  // ----- bounding -----

  /** Redaction, with the decoding before it, and the hash of a text; both uninterpreted. */
  datatype Publishing = Publishing(redact: seq<Byte> -> string, digest: string -> Hash)

  function Marker(originalBytes: nat): string {
    "\n[TRUNCATED:original-bytes=" + Decimals.Text(originalBytes) + "]"
  }

  /** The output is cut and marked exactly when bytes are missing or the redaction is too long for the budget. */
  ghost predicate BoundedOutput(
    p: Publishing, bytes: seq<Byte>, maximumBytes: nat, originalBytes: nat, o: Evidence.Output
  ) {
    && (o.truncated <==> |Encode(p.redact(bytes))| > maximumBytes || originalBytes > |bytes|)
    && o.originalBytes == originalBytes && o.digest == p.digest(p.redact(bytes))
    && (!o.truncated ==> o.preview == p.redact(bytes))
    && (o.truncated ==>
          var marker := "\n[TRUNCATED:original-bytes=" + Decimals.Text(originalBytes) + "]";
          var budget := if maximumBytes < |Encode(marker)| then 0 else maximumBytes - |Encode(marker)|;
          o.preview == p.redact(bytes)[..Fitting(p.redact(bytes), budget)] + marker)
  }

  /** `createBoundedOutput`. */
  method CreateBoundedOutput(p: Publishing, bytes: seq<Byte>, maximumBytes: nat, originalBytes: nat)
    returns (o: Evidence.Output)
    ensures BoundedOutput(p, bytes, maximumBytes, originalBytes, o)
  {
    var text := p.redact(bytes);
    var redactedBytes := |Encode(text)|;
    var truncated := redactedBytes > maximumBytes || originalBytes > |bytes|;
    var marker := if truncated then Marker(originalBytes) else "";
    var prefixBudget := if maximumBytes < |Encode(marker)| then 0 else maximumBytes - |Encode(marker)|;
    var prefix := Utf8Prefix(text, prefixBudget);
    if !truncated {
      FittingIsLongest(text, maximumBytes, |text|);
      assert text[..|text|] == text;
    }
    o := Evidence.Output(prefix + marker, p.digest(text), originalBytes, truncated);
  }

  lemma {:induction false} TextIsAscii(n: nat)
    ensures forall i | 0 <= i < |Decimals.Text(n)| :: Decimals.Text(n)[i] as int < 0x80
  {
    var text := Decimals.Text(n);
    forall i | 0 <= i < |text| ensures text[i] as int < 0x80 {
      assert Decimals.IsDigit(text[i]);
    }
  }

  lemma MarkerLength(n: nat)
    ensures |Encode(Marker(n))| == 28 + |Decimals.Text(n)|
  {
    hide Encode;
    var before, digits := "\n[TRUNCATED:original-bytes=", Decimals.Text(n);
    TextIsAscii(n);
    AsciiLength(before);
    AsciiLength(digits);
    AsciiLength("]");
    EncodeAppend(before + digits, "]");
    EncodeAppend(before, digits);
  }

  /** The preview fits its byte budget exactly unless it is truncated and the marker alone does not fit. */
  lemma PreviewFits(p: Publishing, bytes: seq<Byte>, maximumBytes: nat, originalBytes: nat, o: Evidence.Output)
    requires BoundedOutput(p, bytes, maximumBytes, originalBytes, o)
    ensures |Encode(o.preview)| <= maximumBytes <==>
            !o.truncated || |Encode(Marker(originalBytes))| <= maximumBytes
  {
    if o.truncated {
      var text, marker := p.redact(bytes), Marker(originalBytes);
      var budget := if maximumBytes < |Encode(marker)| then 0 else maximumBytes - |Encode(marker)|;
      FittingIsLongest(text, budget, Fitting(text, budget));
      EncodeAppend(text[..Fitting(text, budget)], marker);
    }
  }

  lemma SmallerPower(j: nat, k: nat)
    requires j <= k
    ensures Decimals.PowerOfTen(j) <= Decimals.PowerOfTen(k)
    decreases k - j
  {
    if j < k {
      SmallerPower(j + 1, k);
    }
  }

  lemma SafeIntegerDigits()
    ensures MAX_SAFE_INTEGER < Decimals.PowerOfTen(16)
  {
    assert Decimals.PowerOfTen(4) == 10_000;
    assert Decimals.PowerOfTen(8) == 100_000_000;
    assert Decimals.PowerOfTen(12) == 1_000_000_000_000;
  }

  /** With the budgets a policy allows, and any byte count the runner can hold exactly, the preview always fits. */
  lemma PolicyBudgetFits(p: Publishing, bytes: seq<Byte>, maximumBytes: nat, originalBytes: nat, o: Evidence.Output)
    requires BoundedOutput(p, bytes, maximumBytes, originalBytes, o)
    requires maximumBytes >= 1024 && originalBytes <= MAX_SAFE_INTEGER
    ensures |Encode(o.preview)| <= maximumBytes
  {
    PreviewFits(p, bytes, maximumBytes, originalBytes, o);
    MarkerLength(originalBytes);
    SafeIntegerDigits();
    Decimals.TextLength(originalBytes, 16);
  }

  /** The text part of a truncated preview is the longest whole-character prefix that leaves room for the marker. */
  lemma PreviewIsLongest(
    p: Publishing, bytes: seq<Byte>, maximumBytes: nat, originalBytes: nat, o: Evidence.Output, j: nat
  )
    requires BoundedOutput(p, bytes, maximumBytes, originalBytes, o) && o.truncated
    requires |Encode(Marker(originalBytes))| <= maximumBytes && j <= |p.redact(bytes)|
    ensures |o.preview| >= |Marker(originalBytes)|
    ensures |Encode(p.redact(bytes)[..j] + Marker(originalBytes))| <= maximumBytes <==>
            j <= |o.preview| - |Marker(originalBytes)|
  {
    var text, marker := p.redact(bytes), Marker(originalBytes);
    FittingIsLongest(text, maximumBytes - |Encode(marker)|, j);
    EncodeAppend(text[..j], marker);
  }

  // ----- one check -----

  /** How the process ended, as the runner sees it. */
  datatype Ending = Ending(timedOut: bool, spawnFailed: bool, exitCode: Option<int>, signal: Option<string>)

  function StatusOf(e: Ending, outputLimitExceeded: bool): Evidence.CheckStatus {
    if e.timedOut then Evidence.TimedOut
    else if e.spawnFailed || outputLimitExceeded then Evidence.Errored
    else if e.exitCode == Some(0) then Evidence.Passed
    else Evidence.Failed
  }

  function HardLimit(maxOutputBytes: nat): nat {
    Min(ABSOLUTE_CAPTURE_LIMIT, Max(1024 * 1024, maxOutputBytes * 16))
  }

  /** A status is what the ending makes it: a timeout before everything, then what kept the check from ending itself. */
  ghost predicate StatusFollows(status: Evidence.CheckStatus, e: Ending, outputLimitExceeded: bool) {
    && (status == Evidence.TimedOut <==> e.timedOut)
    && (status == Evidence.Errored <==> !e.timedOut && (e.spawnFailed || outputLimitExceeded))
    && (status == Evidence.Passed <==>
        !e.timedOut && !e.spawnFailed && !outputLimitExceeded && e.exitCode == Some(0))
    && (status == Evidence.Failed <==>
        !e.timedOut && !e.spawnFailed && !outputLimitExceeded && e.exitCode != Some(0))
  }

  /** How many bytes of a stream are kept: sixteen times the check's budget, but one to sixteen megabytes. */
  ghost function CaptureLimit(maxOutputBytes: nat): nat {
    if maxOutputBytes <= 65_536 then 1_048_576
    else if maxOutputBytes <= 1_048_576 then 16 * maxOutputBytes
    else 16_777_216
  }

  datatype Check = Check(key: string, checkLabel: string, required: bool, maxOutputBytes: nat)

  /** `runCheck`, from the chunks of both streams and the way the process ended. */
  method RunCheck(
    p: Publishing, check: Check, stdoutChunks: seq<seq<Byte>>, stderrChunks: seq<seq<Byte>>, e: Ending
  ) returns (r: Evidence.CheckResult)
    ensures r.key == check.key && r.checkLabel == check.checkLabel && r.required == check.required
    ensures var limit := CaptureLimit(check.maxOutputBytes);
            StatusFollows(r.status, e, |Concat(stdoutChunks)| > limit || |Concat(stderrChunks)| > limit)
    ensures r.exitCode == (if r.status.Passed? || r.status.Failed? then e.exitCode else None) && r.signal == e.signal
    ensures var limit := CaptureLimit(check.maxOutputBytes);
            var maximum := if check.maxOutputBytes < 262_144 then check.maxOutputBytes else 262_144;
            var diagnostic := if e.spawnFailed then Encode("\n[PROCESS ERROR: executable unavailable]\n") else [];
            && BoundedOutput(p, First(Concat(stdoutChunks), limit), maximum, |Concat(stdoutChunks)|, r.stdout)
            && BoundedOutput(p, First(Concat(stderrChunks), limit) + diagnostic, maximum,
                             |Concat(stderrChunks)| + |diagnostic|, r.stderr)
  {
    hide BoundedOutput, Encode, First, Concat;
    var hardLimit := HardLimit(check.maxOutputBytes);
    var stdout, outTerminations := Capture(stdoutChunks, hardLimit);
    var stderr, errTerminations := Capture(stderrChunks, hardLimit);
    var status := StatusOf(e, stdout.exceeded || stderr.exceeded);
    var maximumPreviewBytes := Min(PUBLIC_PREVIEW_LIMIT, check.maxOutputBytes);
    var out := CreateBoundedOutput(p, stdout.retained, maximumPreviewBytes, stdout.bytes);
    var diagnostic := stderr.retained + (if e.spawnFailed then Encode(PROCESS_ERROR) else []);
    var err := CreateBoundedOutput(p, diagnostic, maximumPreviewBytes,
                                   stderr.bytes + (|diagnostic| - |stderr.retained|));
    r := Evidence.CheckResult(check.key, check.checkLabel, check.required, status,
                              if status.Passed? || status.Failed? then e.exitCode else None, e.signal, out, err);
  }

  /**
   * The result meets the check refinement of the schema exactly when the process reported one of an exit code
   * and a signal, wherever that report is used: a zero code without a signal, or a failure with either.
   */
  lemma OutcomeConsistentExactly(r: Evidence.CheckResult, e: Ending, exceeded: bool)
    requires StatusFollows(r.status, e, exceeded) && r.signal == e.signal
    requires r.exitCode == if r.status.Passed? || r.status.Failed? then e.exitCode else None
    ensures Evidence.OutcomeConsistent(r) <==>
            || e.timedOut || e.spawnFailed || exceeded
            || (if e.exitCode == Some(0) then e.signal.None? else e.exitCode.Some? || e.signal.Some?)
  {
  }

  /** An untruncated output is the redaction of all that arrived, and its digest is that of its preview. */
  lemma UntruncatedIsWhole(p: Publishing, arrived: seq<Byte>, limit: nat, maximum: nat, o: Evidence.Output)
    requires BoundedOutput(p, First(arrived, limit), maximum, |arrived|, o)
    ensures !o.truncated ==> o.preview == p.redact(arrived) && |Encode(o.preview)| <= maximum
    ensures !o.truncated ==> |arrived| <= limit
    ensures o.truncated <==> |arrived| > limit || |Encode(p.redact(First(arrived, limit)))| > maximum
    ensures o.truncated || p.digest(o.preview) == o.digest
  {
  }

  /** Whatever a check prints, its outputs pass the digest test of the evidence bundle. */
  lemma DigestsAlwaysMatch(
    env: Evidence.Environment, p: Publishing, r: Evidence.CheckResult, checks: seq<Evidence.CheckResult>
  )
    requires p.digest == env.digest && Evidence.DigestsMatch(env, checks)
    requires exists bytes, maximum, original :: BoundedOutput(p, bytes, maximum, original, r.stdout)
    requires exists bytes, maximum, original :: BoundedOutput(p, bytes, maximum, original, r.stderr)
    ensures Evidence.DigestsMatch(env, checks + [r])
  {
  }
}
