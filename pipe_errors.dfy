/**
 * Classification of the errors that end the two stream-forwarding tasks.
 * Errors caused by the child's pipes closing under a reader are expected on
 * shutdown and are not logged; every other error is logged and nothing more.
 */
module PipeErrors {
  import opened Wrappers
  import opened Strings

  const ClosedConnection: string := "use of closed network connection"
  const FileAlreadyClosed: string := "file already closed"
  const BrokenPipe: string := "broken pipe"

  /** The three message fragments that mark an error as benign, in the order `isBenignPipeError` checks them. */
  const BenignMarkers: seq<string> := [ClosedConnection, FileAlreadyClosed, BrokenPipe]

  /** Log prefixes of the stderr copy task and of the stdout scan task. */
  const StderrCopyPrefix: string := ">>> STDERR copy error: "
  const StdoutScanPrefix: string := ">>> STDOUT scan error: "

  /**
   * `isBenignPipeError`: no error is not benign; an error is benign exactly when
   * its message contains one of the three markers.
   */
  function IsBenignPipeError(err: Option<string>): (r: bool)
    ensures err.None? ==> !r
    ensures err.Some? ==> (r <==> exists k :: 0 <= k < |BenignMarkers| && Contains(err.value, BenignMarkers[k]))
  {
    match err
    case None => false
    case Some(msg) =>
      var r := Contains(msg, ClosedConnection) || Contains(msg, FileAlreadyClosed) || Contains(msg, BrokenPipe);
      assert r ==> exists k :: 0 <= k < |BenignMarkers| && Contains(msg, BenignMarkers[k]) by {
        if Contains(msg, ClosedConnection) {
          assert Contains(msg, BenignMarkers[0]);
        } else if Contains(msg, FileAlreadyClosed) {
          assert Contains(msg, BenignMarkers[1]);
        } else if Contains(msg, BrokenPipe) {
          assert Contains(msg, BenignMarkers[2]);
        }
      }
      r
  }

  /** Any message that embeds one of the markers, wherever and with whatever around it, is benign. */
  lemma BenignWhenMarkerEmbedded(before: string, k: nat, after: string)
    requires k < |BenignMarkers|
    ensures IsBenignPipeError(Some(before + BenignMarkers[k] + after))
  {
    var m := BenignMarkers[k];
    assert OccursAt(m, m, 0);
    ContainsInContext(m, m, before, after);
  }

  /**
   * What a forwarding task logs when its copy or scan ends with `err`: nothing
   * on clean end of stream or when the message carries one of the markers;
   * otherwise one line whose text is the task's prefix and the error message.
   * Neither outcome terminates the process.
   */
  function StreamErrorLog(prefix: string, err: Option<string>): (r: Option<string>)
    ensures r.Some? <==> err.Some? && forall k :: 0 <= k < |BenignMarkers| ==> !Contains(err.value, BenignMarkers[k])
    ensures r.Some? ==> r.value == prefix + err.value
  {
    if err.Some? && !IsBenignPipeError(err) then Some(prefix + err.value) else None
  }

  /**
   * Both forwarding tasks stay silent on every message that embeds a marker,
   * whatever surrounds it, and log every message that embeds none.
   */
  lemma StreamErrorLogSilence(prefix: string, before: string, k: nat, after: string, msg: string)
    requires k < |BenignMarkers|
    ensures StreamErrorLog(prefix, Some(before + BenignMarkers[k] + after)) == None
    ensures StreamErrorLog(prefix, None) == None
    ensures !Contains(msg, ClosedConnection) && !Contains(msg, FileAlreadyClosed) && !Contains(msg, BrokenPipe) ==>
      StreamErrorLog(prefix, Some(msg)) == Some(prefix + msg)
  {
    BenignWhenMarkerEmbedded(before, k, after);
  }

  /**
   * The stderr copy and the stdout scan filter the same errors, and a line
   * either of them logs starts with its own prefix, so it names its stream.
   */
  lemma ForwarderLogs(err: Option<string>)
    ensures StreamErrorLog(StderrCopyPrefix, err).Some? <==> StreamErrorLog(StdoutScanPrefix, err).Some?
    ensures StreamErrorLog(StderrCopyPrefix, err).Some? ==>
      StreamErrorLog(StderrCopyPrefix, err).value[..|StderrCopyPrefix|] == StderrCopyPrefix &&
      StreamErrorLog(StdoutScanPrefix, err).value[..|StdoutScanPrefix|] == StdoutScanPrefix &&
      StreamErrorLog(StderrCopyPrefix, err) != StreamErrorLog(StdoutScanPrefix, err)
  {
    if err.Some? && !IsBenignPipeError(err) {
      var e, o := StreamErrorLog(StderrCopyPrefix, err).value, StreamErrorLog(StdoutScanPrefix, err).value;
      assert e[4] == 'S' && e[5] == 'T' && e[6] == 'D' && e[7] == 'E';
      assert o[4] == 'S' && o[5] == 'T' && o[6] == 'D' && o[7] == 'O';
    }
  }
}
