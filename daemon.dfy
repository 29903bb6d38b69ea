/**
 * The supervisor's process registry: the transcript map `PROGRAM_IO` and
 * the standard-input map `PROGRAM_STDIN`, updated by launching a program,
 * by each line its output pump receives, and by writes, and read by lookups.
 * Each method is one critical section, run sequentially.
 */
module Daemon {
  import opened Common

  /** The output pump of one launch: the name it publishes under and its
      private accumulator `stdout_accum`. */
  datatype Pump = Pump(name: string, accum: string)

  /** The transcript of a sequence of output lines: each line followed by a newline. */
  function Transcript(lines: seq<string>): string
  {
    if lines == [] then "" else Transcript(lines[..|lines| - 1]) + lines[|lines| - 1] + "\n"
  }

  /** `a` is a proper prefix of `b`. */
  predicate StrictPrefix(a: string, b: string)
  {
    |a| < |b| && b[..|a|] == a
  }

  class Registry {
    /** `PROGRAM_IO`: name to the transcript published so far. */
    var io: map<string, string>
    /** `PROGRAM_STDIN`: name to what has been written to its registered
        standard-input handle; a relaunch registers a new, empty handle. */
    var stdin: map<string, seq<string>>

    constructor ()
      ensures io == map[] && stdin == map[]
    {
      io := map[];
      stdin := map[];
    }

    /** The registration step of `run_program_background`: the child's stdin
        handle is stored under `name`, replacing any earlier one, and a pump
        with an empty accumulator is started. Transcripts are not touched, so
        an earlier run's transcript stays visible until the first new line. */
    method Launch(name: string) returns (pump: Pump)
      modifies this
      ensures stdin == old(stdin)[name := []]
      ensures io == old(io)
      ensures pump == Pump(name, "")
    {
      stdin := stdin[name := []];
      pump := Pump(name, "");
    }

    /** One iteration of the pump loop: the line and a newline are appended to
        the accumulator, and the accumulator replaces the published transcript. */
    method OnLine(pump: Pump, line: string) returns (next: Pump)
      modifies this
      ensures next == Pump(pump.name, pump.accum + line + "\n")
      ensures io == old(io)[pump.name := next.accum]
      ensures stdin == old(stdin)
      ensures StrictPrefix(pump.accum, io[pump.name])
      ensures pump.name in old(io) && old(io)[pump.name] == pump.accum ==>
                StrictPrefix(old(io)[pump.name], io[pump.name])
    {
      var accum := pump.accum + line + "\n";
      assert accum[..|pump.accum|] == pump.accum;
      io := io[pump.name := accum];
      next := Pump(pump.name, accum);
    }

    /** `get_program_io`: the published transcript, if any. */
    method Read(name: string) returns (r: Option<string>)
      ensures r.Some? <==> name in io
      ensures r.Some? ==> r.value == io[name]
    {
      if name in io {
        r := Some(io[name]);
      } else {
        r := None;
      }
    }

    /** `write_to_program`: the command and then a newline go to the handle
        registered under `name`; an unknown name is silently ignored. */
    method Write(name: string, command: string)
      modifies this
      ensures io == old(io)
      ensures name in old(stdin) ==> stdin == old(stdin)[name := old(stdin)[name] + [command, "\n"]]
      ensures name !in old(stdin) ==> stdin == old(stdin)
    {
      if name in stdin {
        stdin := stdin[name := stdin[name] + [command, "\n"]];
      }
    }

    /** `run_program_background` for a child that prints `lines` and exits:
        after the run, the transcript under `name` is all of them, each with its
        newline; a child that prints nothing publishes nothing. */
    method RunProgram(name: string, lines: seq<string>)
      modifies this
      ensures stdin == old(stdin)[name := []]
      ensures io == if lines == [] then old(io) else old(io)[name := Transcript(lines)]
    {
      var pump := Launch(name);
      for i := 0 to |lines|
        invariant pump == Pump(name, Transcript(lines[..i]))
        invariant stdin == old(stdin)[name := []]
        invariant io == if i == 0 then old(io) else old(io)[name := Transcript(lines[..i])]
      {
        assert lines[..i + 1][..i] == lines[..i];
        pump := OnLine(pump, lines[i]);
      }
      assert lines[..|lines|] == lines;
    }
  }

  /** Any transcript a reader sees during a run is a prefix of the final one. */
  lemma {:induction false} TranscriptPrefix(lines: seq<string>, k: nat)
    requires k <= |lines|
    ensures |Transcript(lines[..k])| <= |Transcript(lines)|
    ensures Transcript(lines)[..|Transcript(lines[..k])|] == Transcript(lines[..k])
    decreases |lines|
  {
    if k < |lines| {
      var init := lines[..|lines| - 1];
      assert init[..k] == lines[..k];
      TranscriptPrefix(init, k);
      var t := Transcript(init);
      assert Transcript(lines) == t + lines[|lines| - 1] + "\n";
      assert Transcript(lines)[..|t|] == t;
    } else {
      assert lines[..k] == lines;
    }
  }

  /** The transcript read from the front. */
  lemma {:induction false} TranscriptCons(line: string, rest: seq<string>)
    ensures Transcript([line] + rest) == line + "\n" + Transcript(rest)
    decreases |rest|
  {
    if rest != [] {
      var init := rest[..|rest| - 1];
      assert ([line] + rest)[..|rest|] == [line] + init;
      TranscriptCons(line, init);
    } else {
      assert [line] + rest == [line];
    }
  }

  /** The position of the first newline in `s`, or `|s|` if there is none. */
  function NewlineIndex(s: string): (i: nat)
    ensures i <= |s|
    ensures i < |s| ==> s[i] == '\n'
    ensures forall j :: 0 <= j < i ==> s[j] != '\n'
    decreases |s|
  {
    if s == [] then 0 else if s[0] == '\n' then 0 else 1 + NewlineIndex(s[1..])
  }

  /** A carriage return right before the newline is dropped with it. */
  function StripCR(s: string): string
  {
    if |s| > 0 && s[|s| - 1] == '\r' then s[..|s| - 1] else s
  }

  /** The lines `BufReader::lines` yields from a child's output: split at each
      newline, dropping the newline and a carriage return before it; a final
      unterminated piece is a last line. */
  function SplitLines(out: string): seq<string>
    decreases |out|
  {
    if out == [] then []
    else
      var i := NewlineIndex(out);
      if i == |out| then [out] else [StripCR(out[..i])] + SplitLines(out[i + 1..])
  }

  /** A line that reads back as itself from its transcript entry: no newline
      and no trailing carriage return. The reader can also deliver a line
      ending in a carriage return (from a `\r\r\n` ending); see
      `TrailingCarriageReturnLost`. */
  predicate IsLine(line: string)
  {
    '\n' !in line && !(|line| > 0 && line[|line| - 1] == '\r')
  }

  /** The first newline of `line + "\n" + tail` ends `line` when `line` has none. */
  lemma {:induction false} NewlineAfterLine(line: string, tail: string)
    requires '\n' !in line
    ensures NewlineIndex(line + "\n" + tail) == |line|
    decreases |line|
  {
    var s := line + "\n" + tail;
    if line != [] {
      assert s[1..] == line[1..] + "\n" + tail;
      assert line[0] in line;
      NewlineAfterLine(line[1..], tail);
    }
  }

  /** One line splits off the front of a transcript. */
  lemma SplitFirstLine(line: string, tail: string)
    requires IsLine(line)
    ensures SplitLines(line + "\n" + tail) == [line] + SplitLines(tail)
  {
    var s := line + "\n" + tail;
    NewlineAfterLine(line, tail);
    assert s[..|line|] == line;
    assert s[|line| + 1..] == tail;
  }

  /** Lines with no newline and no trailing carriage return can be recovered
      from the transcript. */
  lemma {:induction false} SplitTranscript(lines: seq<string>)
    requires forall i :: 0 <= i < |lines| ==> IsLine(lines[i])
    ensures SplitLines(Transcript(lines)) == lines
    decreases |lines|
  {
    if lines != [] {
      var line, rest := lines[0], lines[1..];
      assert lines == [line] + rest;
      calc {
        SplitLines(Transcript(lines));
        == { TranscriptCons(line, rest); }
        SplitLines(line + "\n" + Transcript(rest));
        == { SplitFirstLine(line, Transcript(rest)); }
        [line] + SplitLines(Transcript(rest));
        == { SplitTranscript(rest); }
        [line] + rest;
      }
    }
  }

  /** A line the reader delivers from `"a\r\r\n"` keeps one carriage return,
      and the transcript entry for it reads back without that carriage return. */
  lemma TrailingCarriageReturnLost()
    ensures SplitLines("a\r\r\n") == ["a\r"]
    ensures !IsLine("a\r")
    ensures Transcript(["a\r"]) == "a\r\n"
    ensures SplitLines(Transcript(["a\r"])) == ["a"]
  {
    var raw, entry := "a\r\r\n", "a\r\n";
    assert NewlineIndex(raw) == 3;
    assert raw[..3] == "a\r\r" && raw[4..] == [];
    assert StripCR("a\r\r") == "a\r";
    assert SplitLines(raw) == [StripCR(raw[..3])] + SplitLines(raw[4..]);
    assert ["a\r"][..0] == [];
    assert Transcript(["a\r"]) == "" + "a\r" + "\n";
    assert NewlineIndex(entry) == 2;
    assert entry[..2] == "a\r" && entry[3..] == [];
    assert StripCR("a\r") == "a";
    assert SplitLines(entry) == [StripCR(entry[..2])] + SplitLines(entry[3..]);
  }

  /** `s` contains no carriage return. */
  predicate NoCarriageReturn(s: string)
  {
    forall k :: 0 <= k < |s| ==> s[k] != '\r'
  }

  /** Without carriage returns, the first line is everything before the first newline. */
  lemma {:induction false} FirstLineOfPlainOutput(out: string)
    requires NoCarriageReturn(out) && NewlineIndex(out) < |out|
    ensures SplitLines(out) == [out[..NewlineIndex(out)]] + SplitLines(out[NewlineIndex(out) + 1..])
  {
    var i := NewlineIndex(out);
    var line := out[..i];
    assert StripCR(line) == line by {
      if |line| > 0 {
        assert line[|line| - 1] == out[i - 1];
      }
    }
  }

  /** Output with plain newline endings whose last line is terminated is
      reproduced exactly by the transcript of its lines. */
  lemma {:induction false} TranscriptOfSplit(out: string)
    requires NoCarriageReturn(out)
    requires out == [] || out[|out| - 1] == '\n'
    ensures Transcript(SplitLines(out)) == out
    decreases |out|
  {
    if out != [] {
      var i := NewlineIndex(out);
      var line, rest := out[..i], out[i + 1..];
      assert NoCarriageReturn(rest) by {
        forall k | 0 <= k < |rest| ensures rest[k] != '\r' {
          assert rest[k] == out[i + 1 + k];
        }
      }
      assert rest == [] || rest[|rest| - 1] == out[|out| - 1];
      calc {
        Transcript(SplitLines(out));
        == { FirstLineOfPlainOutput(out); }
        Transcript([line] + SplitLines(rest));
        == { TranscriptCons(line, SplitLines(rest)); }
        line + "\n" + Transcript(SplitLines(rest));
        == { TranscriptOfSplit(rest); }
        line + "\n" + rest;
        == { assert out[i] == '\n'; }
        out;
      }
    }
  }

  /** The supervisor round trip: launch `echo`, write `ping`, receive the
      echoed line, read the transcript; a name never launched reads as absent,
      and so does a launched one before its first line. A relaunch keeps the
      old transcript visible until its first line, then starts afresh. */
  method EchoRoundTrip() returns (beforeLine: Option<string>, sent: seq<string>, seen: Option<string>,
                                  never: Option<string>, afterRelaunch: Option<string>, restarted: Option<string>)
    ensures beforeLine == None
    ensures sent == ["ping", "\n"]
    ensures seen == Some("Echo: ping\n")
    ensures never == None
    ensures afterRelaunch == Some("Echo: ping\n")
    ensures restarted == Some("ready\n")
  {
    var registry := new Registry();
    var pump := registry.Launch("echo");
    beforeLine := registry.Read("echo");
    registry.Write("echo", "ping");
    registry.Write("nobody", "ping");
    sent := registry.stdin["echo"];
    assert "" + "Echo: ping" + "\n" == "Echo: ping\n";
    pump := registry.OnLine(pump, "Echo: ping");
    seen := registry.Read("echo");
    never := registry.Read("never-launched");
    var second := registry.Launch("echo");
    afterRelaunch := registry.Read("echo");
    assert "" + "ready" + "\n" == "ready\n";
    second := registry.OnLine(second, "ready");
    restarted := registry.Read("echo");
  }
}
