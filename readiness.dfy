/**
 * The readiness latch and the stdout scan loop. Each line the child writes to
 * stdout is echoed to the wrapper's stdout with a newline; the first line that
 * contains the help marker moves the game server to READY, once. The latch is
 * the `sync.Once` behind `ready`, taken sequentially: check `fired`, set it,
 * print the banner, call the SDK's `Ready`.
 */
module Readiness {
  import opened Wrappers
  import opened Strings

  /** The line the server prints once it accepts console commands. */
  const HelpLine: string := "Type help for list of commands."

  /** The trigger label the scan loop passes to `ready`. */
  const HelpLineTrigger: string := "help-line"

  /** Fixed text of the READY banner before the trigger label. */
  const BannerLead: string := ">>> Moving to READY (trigger: "

  /**
   * What `ready` prints to stdout before it calls the SDK: one newline-ended
   * line that names the trigger between the fixed lead and a closing parenthesis.
   */
  function ReadyBanner(trigger: string): (r: string)
    ensures |r| == |BannerLead| + |trigger| + 2 && r[|r| - 2..] == ")\n"
    ensures r[..|BannerLead|] == BannerLead && r[|BannerLead|..|r| - 2] == trigger
    ensures Contains(r, trigger)
  {
    var r := BannerLead + trigger + ")\n";
    assert OccursAt(r, trigger, |BannerLead|);
    r
  }

  /**
   * What the scan loop writes for one line: its echo, then the READY banner
   * when the line carries the marker and the latch has not fired before.
   */
  function LineOutput(line: string, firedBefore: bool): (r: seq<string>)
    ensures |r| >= 1 && r[0] == line + "\n"
    ensures |r| == (if !firedBefore && Contains(line, HelpLine) then 2 else 1)
    ensures |r| == 2 ==> r[1] == ReadyBanner(HelpLineTrigger)
  {
    [line + "\n"] + (if !firedBefore && Contains(line, HelpLine) then [ReadyBanner(HelpLineTrigger)] else [])
  }

  /** `fmt.Fprintln` of each line: the lines, in order, each with a newline appended. */
  function Echo(lines: seq<string>): (r: seq<string>)
    ensures |r| == |lines|
    ensures forall i :: 0 <= i < |lines| ==> r[i] == lines[i] + "\n"
  {
    seq(|lines|, i requires 0 <= i < |lines| => lines[i] + "\n")
  }

  lemma {:induction false} EchoAppend(a: seq<string>, b: seq<string>)
    ensures Echo(a + b) == Echo(a) + Echo(b)
  {
  }

  /** Index of the first line that contains the help marker (a substring test, not line equality). */
  function FirstHelpLine(lines: seq<string>): (r: Option<nat>)
    ensures r.None? <==> forall i :: 0 <= i < |lines| ==> !Contains(lines[i], HelpLine)
    ensures r.Some? ==> r.value < |lines| && Contains(lines[r.value], HelpLine)
    ensures r.Some? ==> forall i :: 0 <= i < r.value ==> !Contains(lines[i], HelpLine)
  {
    if lines == [] then None
    else if Contains(lines[0], HelpLine) then Some(0)
    else
      match FirstHelpLine(lines[1..])
      case None => None
      case Some(k) => Some(k + 1)
  }

  /** The first marker is determined by its defining property. */
  lemma {:induction false} FirstHelpLineAt(lines: seq<string>, k: nat)
    requires k < |lines| && Contains(lines[k], HelpLine)
    requires forall i :: 0 <= i < k ==> !Contains(lines[i], HelpLine)
    ensures FirstHelpLine(lines) == Some(k)
  {
    var r := FirstHelpLine(lines);
    assert r.Some?;
    assert !(r.value < k);
    assert !(r.value > k);
  }

  /** Appending a line moves the first marker only if there was none and the new line has it. */
  lemma {:induction false} FirstHelpLineAppend(lines: seq<string>, line: string)
    ensures FirstHelpLine(lines + [line]) ==
      if FirstHelpLine(lines).Some? then FirstHelpLine(lines)
      else if Contains(line, HelpLine) then Some(|lines|)
      else None
  {
    var ls := lines + [line];
    assert forall i :: 0 <= i < |lines| ==> ls[i] == lines[i];
    assert ls[|lines|] == line;
    if FirstHelpLine(lines).Some? {
      FirstHelpLineAt(ls, FirstHelpLine(lines).value);
    } else if Contains(line, HelpLine) {
      FirstHelpLineAt(ls, |lines|);
    }
  }

  /**
   * The stdout of a fresh scan over `lines`: every line echoed in order, and the
   * READY banner exactly once, directly after the first line carrying the
   * marker, if there is one.
   */
  function ScanOutput(lines: seq<string>): seq<string> {
    match FirstHelpLine(lines)
    case None => Echo(lines)
    case Some(k) => Echo(lines[..k + 1]) + [ReadyBanner(HelpLineTrigger)] + Echo(lines[k + 1..])
  }

  /**
   * The scan output holds every line's echo in order; when some line carries
   * the marker it holds one more entry, the banner, right after that line's echo.
   */
  lemma ScanOutputShape(lines: seq<string>)
    ensures FirstHelpLine(lines).None? ==> ScanOutput(lines) == Echo(lines)
    ensures FirstHelpLine(lines).Some? ==>
      var k := FirstHelpLine(lines).value;
      var r := ScanOutput(lines);
      |r| == |lines| + 1 && r[k + 1] == ReadyBanner(HelpLineTrigger) && r[..k + 1] + r[k + 2..] == Echo(lines)
  {
    if FirstHelpLine(lines).Some? {
      var k := FirstHelpLine(lines).value;
      var r := ScanOutput(lines);
      assert r[..k + 1] == Echo(lines[..k + 1]);
      assert r[k + 2..] == Echo(lines[k + 1..]);
      EchoAppend(lines[..k + 1], lines[k + 1..]);
      assert lines[..k + 1] + lines[k + 1..] == lines;
    }
  }

  /** One more line extends the scan output by its echo, then the banner if this line fires the latch. */
  lemma {:induction false} ScanOutputAppend(lines: seq<string>, line: string)
    ensures ScanOutput(lines + [line]) == ScanOutput(lines) + LineOutput(line, FirstHelpLine(lines).Some?)
  {
    FirstHelpLineAppend(lines, line);
    if FirstHelpLine(lines).Some? {
      ScanOutputAppendAfterFiring(lines, line);
    } else if Contains(line, HelpLine) {
      ScanOutputAppendFiring(lines, line);
    } else {
      EchoAppend(lines, [line]);
    }
  }

  lemma {:induction false} ScanOutputAppendFiring(lines: seq<string>, line: string)
    requires FirstHelpLine(lines).None? && FirstHelpLine(lines + [line]) == Some(|lines|)
    ensures ScanOutput(lines + [line]) == Echo(lines) + [line + "\n"] + [ReadyBanner(HelpLineTrigger)]
  {
    var ls := lines + [line];
    var n := |lines|;
    assert ls[..n + 1] == ls && ls[n + 1..] == [];
    EchoAppend(lines, [line]);
    assert Echo(ls) == Echo(lines) + [line + "\n"];
  }

  lemma {:induction false} ScanOutputAppendAfterFiring(lines: seq<string>, line: string)
    requires FirstHelpLine(lines).Some? && FirstHelpLine(lines + [line]) == FirstHelpLine(lines)
    ensures ScanOutput(lines + [line]) == ScanOutput(lines) + [line + "\n"]
  {
    var ls := lines + [line];
    var k := FirstHelpLine(lines).value;
    var banner := [ReadyBanner(HelpLineTrigger)];
    assert ls[..k + 1] == lines[..k + 1];
    assert ls[k + 1..] == lines[k + 1..] + [line];
    EchoAppend(lines[k + 1..], [line]);
    assert Echo(ls[k + 1..]) == Echo(lines[k + 1..]) + [line + "\n"];
    var head, tail := Echo(lines[..k + 1]) + banner, Echo(lines[k + 1..]);
    assert head + (tail + [line + "\n"]) == head + tail + [line + "\n"];
  }

  /** How many lines the scan loop reads: all of them, unless a failed `Ready` ends the process at the first marker. */
  function Consumed(lines: seq<string>, readyOk: bool): (n: nat)
    ensures n <= |lines|
  {
    match FirstHelpLine(lines)
    case Some(k) => if readyOk then |lines| else k + 1
    case None => |lines|
  }

  /**
   * The `sync.Once` latch together with what it drives: the number of SDK
   * `Ready` calls, the text written to stdout, and whether a failed `Ready`
   * has ended the process (`log.Fatalf`).
   */
  class Latch {
    var fired: bool
    var readyCalls: nat
    var stdout: seq<string>
    var halted: bool

    /** `Ready` is called once when the latch has fired and never otherwise; only a fired latch can halt. */
    ghost predicate Valid()
      reads this
    {
      readyCalls == (if fired then 1 else 0) && (halted ==> fired)
    }

    constructor ()
      ensures Valid()
      ensures !fired && readyCalls == 0 && stdout == [] && !halted
    {
      fired, readyCalls, stdout, halted := false, 0, [], false;
    }

    /**
     * `ready(trigger)`: the first call prints the banner and calls the SDK's
     * `Ready`, whose outcome is `readyOk`; a failure is fatal. Later calls do nothing.
     */
    method Ready(trigger: string, readyOk: bool)
      requires Valid()
      modifies this
      ensures Valid() && fired
      ensures old(fired) ==> readyCalls == old(readyCalls) && stdout == old(stdout) && halted == old(halted)
      ensures !old(fired) ==> readyCalls == 1 && stdout == old(stdout) + [ReadyBanner(trigger)] && halted == !readyOk
    {
      if !fired {
        fired := true;
        stdout := stdout + [ReadyBanner(trigger)];
        readyCalls := readyCalls + 1;
        if !readyOk {
          halted := true;
        }
      }
    }

    /**
     * The scan loop's body for one line: echo it, and fire the latch if the
     * line contains the marker. A line without the marker leaves the latch as it was.
     */
    method OnLine(line: string, readyOk: bool)
      requires Valid() && !halted
      modifies this
      ensures Valid()
      ensures fired == (old(fired) || Contains(line, HelpLine))
      ensures stdout == old(stdout) + LineOutput(line, old(fired))
      ensures halted == (!old(fired) && Contains(line, HelpLine) && !readyOk)
    {
      stdout := stdout + [line + "\n"];
      if Contains(line, HelpLine) {
        Ready(HelpLineTrigger, readyOk);
      }
    }

    /**
     * `for sc.Scan() { … }` over the child's stdout, already split into
     * `lines`, starting from a latch that has not fired. The loop stops early
     * only when `Ready` fails, since that ends the process.
     */
    method Scan(lines: seq<string>, readyOk: bool) returns (consumed: nat)
      requires Valid() && !fired && !halted && stdout == []
      modifies this
      ensures Valid()
      ensures consumed == Consumed(lines, readyOk)
      ensures fired <==> FirstHelpLine(lines).Some?
      ensures readyCalls == (if FirstHelpLine(lines).Some? then 1 else 0)
      ensures halted <==> (FirstHelpLine(lines).Some? && !readyOk)
      ensures stdout == ScanOutput(lines[..consumed])
    {
      consumed := 0;
      ghost var seen: seq<string> := [];
      while consumed < |lines| && !halted
        invariant consumed <= |lines| && seen == lines[..consumed]
        invariant Valid()
        invariant fired <==> FirstHelpLine(seen).Some?
        invariant halted <==> (fired && !readyOk)
        invariant halted ==> FirstHelpLine(seen) == Some(consumed - 1)
        invariant stdout == ScanOutput(seen)
      {
        var line := lines[consumed];
        FirstHelpLineAppend(seen, line);
        ScanOutputAppend(seen, line);
        OnLine(line, readyOk);
        assert lines[..consumed + 1] == seen + [line];
        seen := seen + [line];
        consumed := consumed + 1;
      }
      ScanEnds(lines, consumed, readyOk);
    }
  }

  /** A marker found in a prefix is the first marker of the whole sequence; none in the whole means none in any prefix. */
  lemma {:induction false} PrefixFirstHelpLine(lines: seq<string>, n: nat)
    requires n <= |lines|
    ensures FirstHelpLine(lines[..n]).Some? ==> FirstHelpLine(lines) == FirstHelpLine(lines[..n])
    ensures FirstHelpLine(lines[..n]).None? ==> FirstHelpLine(lines).None? || FirstHelpLine(lines).value >= n
  {
    var p := lines[..n];
    assert forall i :: 0 <= i < n ==> p[i] == lines[i];
    if FirstHelpLine(p).Some? {
      var k := FirstHelpLine(p).value;
      FirstHelpLineAt(lines, k);
    }
  }

  /**
   * Where the scan loop stops: at the end of the stream, or right after the
   * first marker line when `Ready` fails. Either way the latch state read off
   * the prefix is the one of the whole stream.
   */
  lemma ScanEnds(lines: seq<string>, n: nat, readyOk: bool)
    requires n <= |lines|
    requires if FirstHelpLine(lines[..n]).Some? && !readyOk then FirstHelpLine(lines[..n]) == Some(n - 1) else n == |lines|
    ensures n == Consumed(lines, readyOk)
    ensures FirstHelpLine(lines[..n]).Some? <==> FirstHelpLine(lines).Some?
  {
    PrefixFirstHelpLine(lines, n);
    if n == |lines| {
      assert lines[..n] == lines;
    }
  }

  /** Once fired, no sequence of further lines resets the latch or calls `Ready` again. */
  method ScanMore(latch: Latch, more: seq<string>, readyOk: bool)
    requires latch.Valid() && latch.fired && !latch.halted
    modifies latch
    ensures latch.Valid() && latch.fired && latch.readyCalls == 1 && !latch.halted
    ensures latch.stdout == old(latch.stdout) + Echo(more)
  {
    var i := 0;
    while i < |more|
      invariant i <= |more|
      invariant latch.Valid() && latch.fired && !latch.halted
      invariant latch.stdout == old(latch.stdout) + Echo(more[..i])
    {
      latch.OnLine(more[i], readyOk);
      assert more[..i + 1] == more[..i] + [more[i]];
      EchoAppend(more[..i], [more[i]]);
      i := i + 1;
    }
    assert more[..i] == more;
  }
}
