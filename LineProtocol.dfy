/**
 * The loop of `MainWindow.handle_serial_data` over the text the serial port
 * delivers, as functions of the buffer and the series store: the buffer is
 * cut at each `\n`, every line is stripped, blank lines are skipped, and each
 * remaining line goes to a line handler (in the window, `LineEffect`). The
 * method in `Plotter` is proved to compute `Drain`; the lemmas here say what
 * `Drain` means for any handler.
 */
module LineProtocol {
  import opened Strings
  import opened SeriesStore
  import opened LineHandling

  /** What is done with one stripped, non-blank line. */
  type Handler = (Store, string) -> LineOutcome

  /** The handler of the window whose slider is at `window`. */
  function Handle(window: nat): Handler
    requires window >= 1
  {
    (store: Store, line: string) => LineEffect(store, window, line)
  }

  /** `line.strip("\r").strip()`. */
  function Clean(raw: string): string {
    Strip(Strip(raw, IsCR), IsSpace)
  }

  /** Stripping `\r` first changes nothing: a cleaned line is `line.strip()`. */
  lemma CleanIsStrip(raw: string)
    ensures Clean(raw) == Strip(raw, IsSpace)
  {
    StripCRThenSpace(raw);
  }

  /** `buffer.split("\n", 1)` on a buffer that holds a newline. */
  function SplitFirst(buffer: string): (r: (string, string))
    requires '\n' in buffer
    ensures r.0 + "\n" + r.1 == buffer
    ensures '\n' !in r.0
  {
    var k := IndexOf(buffer, '\n');
    assert buffer == buffer[..k] + "\n" + buffer[k + 1..];
    (buffer[..k], buffer[k + 1..])
  }

  /** Lines written back with their terminators. */
  function Join(lines: seq<string>): string {
    if lines == [] then "" else lines[0] + "\n" + Join(lines[1..])
  }

  /**
   * The complete lines in a buffer, in arrival order, and the unterminated
   * text after the last `\n`.
   */
  function Lines(buffer: string): (r: (seq<string>, string))
    ensures Join(r.0) + r.1 == buffer
    ensures '\n' !in r.1
    ensures forall i :: 0 <= i < |r.0| ==> '\n' !in r.0[i]
    decreases |buffer|
  {
    if '\n' !in buffer then ([], buffer)
    else
      var (line, rest) := SplitFirst(buffer);
      var (more, tail) := Lines(rest);
      assert Join([line] + more) == line + "\n" + Join(more) by {
        assert ([line] + more)[1..] == more;
      }
      ([line] + more, tail)
  }

  /** The lines that reach the handler: each one stripped, the blank ones dropped. */
  function Passed(lines: seq<string>): (r: seq<string>)
    ensures |r| <= |lines|
    ensures forall c :: c in r ==> c != [] && exists l :: l in lines && Clean(l) == c
    decreases |lines|
  {
    if lines == [] then []
    else
      var c := Clean(lines[0]);
      var rest := Passed(lines[1..]);
      CleanOfTail(lines, rest);
      if c == [] then rest
      else
        assert lines[0] in lines;
        [c] + rest
  }

  /** What comes from the lines after the first comes from the lines. */
  lemma CleanOfTail(lines: seq<string>, rest: seq<string>)
    requires lines != []
    requires forall c :: c in rest ==> exists l :: l in lines[1..] && Clean(l) == c
    ensures forall c :: c in rest ==> exists l :: l in lines && Clean(l) == c
  {
    forall c | c in rest
      ensures exists l :: l in lines && Clean(l) == c
    {
      var l :| l in lines[1..] && Clean(l) == c;
      assert l in lines;
    }
  }

  /** Every line the handler sees is non-blank and already stripped of whitespace at both ends. */
  lemma PassedAreStripped(lines: seq<string>)
    ensures forall i :: 0 <= i < |Passed(lines)| ==>
      Passed(lines)[i] != [] && Strip(Passed(lines)[i], IsSpace) == Passed(lines)[i]
  {
    var r := Passed(lines);
    forall i | 0 <= i < |r|
      ensures r[i] != [] && Strip(r[i], IsSpace) == r[i]
    {
      assert r[i] in r;
      var l :| l in lines && Clean(l) == r[i];
      StripIdempotent(Strip(l, IsCR), IsSpace);
    }
  }

  /** The handler applied to lines one after another, stopping after a line on which it failed. */
  function ApplyLines(store: Store, handle: Handler, lines: seq<string>): LineOutcome
    decreases |lines|
  {
    if lines == [] then LineOutcome(store, [], true)
    else
      var first := handle(store, lines[0]);
      if !first.ok then first
      else
        var rest := ApplyLines(first.store, handle, lines[1..]);
        LineOutcome(rest.store, first.events + rest.events, rest.ok)
  }

  /** The buffer, the store and the events after the loop of `handle_serial_data`. */
  datatype Drained = Drained(buffer: string, store: Store, events: seq<Event>, ok: bool)

  /**
   * The `while "\n" in self.input_buffer` loop: split off the first line,
   * skip it when blank, otherwise handle it; a failing line ends the call
   * with the buffer already past that line.
   */
  function Drain(buffer: string, store: Store, handle: Handler): (r: Drained)
    ensures IsSuffix(r.buffer, buffer)
    ensures r.ok ==> '\n' !in r.buffer
    decreases |buffer|
  {
    if '\n' !in buffer then Drained(buffer, store, [], true)
    else
      var (line, rest) := SplitFirst(buffer);
      assert IsSuffix(rest, buffer) by {
        assert buffer == (line + "\n") + rest;
      }
      var clean := Clean(line);
      if clean == [] then
        var more := Drain(rest, store, handle);
        SuffixTrans(more.buffer, rest, buffer);
        more
      else
        var first := handle(store, clean);
        if !first.ok then Drained(rest, first.store, first.events, false)
        else
          var more := Drain(rest, first.store, handle);
          SuffixTrans(more.buffer, rest, buffer);
          Drained(more.buffer, more.store, first.events + more.events, more.ok)
  }

  /**
   * The loop handles exactly the lines of the buffer: store, events and
   * outcome are those of the handler run over the stripped non-blank lines
   * in order, and when no line failed, the buffer keeps just the
   * unterminated tail.
   */
  lemma {:induction false} DrainMatchesLines(buffer: string, store: Store, handle: Handler)
    ensures var d := Drain(buffer, store, handle);
      var ref := ApplyLines(store, handle, Passed(Lines(buffer).0));
      && d.store == ref.store && d.events == ref.events && d.ok == ref.ok
      && (d.ok ==> d.buffer == Lines(buffer).1)
    decreases |buffer|
  {
    if '\n' in buffer {
      var (line, rest) := SplitFirst(buffer);
      LinesStep(buffer);
      PassedStep(line, Lines(rest).0);
      var clean := Clean(line);
      if clean == [] {
        BlankStep(buffer, store, handle);
        DrainMatchesLines(rest, store, handle);
      } else {
        ApplyLinesStep(store, handle, clean, Passed(Lines(rest).0));
        var first := handle(store, clean);
        if first.ok {
          HandledStep(buffer, store, handle);
          DrainMatchesLines(rest, first.store, handle);
        }
      }
    }
  }

  /** `Lines` on a buffer with a newline: its first line, then the lines of the rest. */
  lemma LinesStep(buffer: string)
    requires '\n' in buffer
    ensures Lines(buffer) == ([SplitFirst(buffer).0] + Lines(SplitFirst(buffer).1).0, Lines(SplitFirst(buffer).1).1)
  {
  }

  /** `Passed` on a line followed by more lines. */
  lemma PassedStep(line: string, more: seq<string>)
    ensures Passed([line] + more) == if Clean(line) == [] then Passed(more) else [Clean(line)] + Passed(more)
  {
    assert ([line] + more)[1..] == more;
  }

  /** `ApplyLines` on a line followed by more lines. */
  lemma ApplyLinesStep(store: Store, handle: Handler, line: string, more: seq<string>)
    ensures var first := handle(store, line);
      var rest := ApplyLines(first.store, handle, more);
      ApplyLines(store, handle, [line] + more)
        == if !first.ok then first else LineOutcome(rest.store, first.events + rest.events, rest.ok)
  {
    assert ([line] + more)[1..] == more;
  }

  /** Splitting a buffer at its first newline is not affected by text appended after it. */
  lemma SplitFirstAppend(buffer: string, more: string)
    requires '\n' in buffer
    ensures '\n' in buffer + more
    ensures SplitFirst(buffer + more) == (SplitFirst(buffer).0, SplitFirst(buffer).1 + more)
  {
    var k := IndexOf(buffer, '\n');
    IndexOfAppend(buffer, more, '\n');
    assert (buffer + more)[..k] == buffer[..k];
    assert (buffer + more)[k + 1..] == buffer[k + 1..] + more;
  }

  /**
   * Where the loop stands: the text still buffered, the store, the events so
   * far, and whether every line so far was handled.
   */
  function Continue(d: Drained, handle: Handler): Drained {
    if !d.ok then d
    else
      var more := Drain(d.buffer, d.store, handle);
      Drained(more.buffer, more.store, d.events + more.events, more.ok)
  }

  /** One call of `Drain` after another, as a single result. */
  function Then(d1: Drained, b: string, handle: Handler): Drained {
    Continue(d1.(buffer := d1.buffer + b), handle)
  }

  /** One turn of the loop: split off the first line and handle it unless it is blank. */
  function Step(d: Drained, handle: Handler): Drained
    requires '\n' in d.buffer
  {
    var (line, rest) := SplitFirst(d.buffer);
    var clean := Clean(line);
    if clean == [] then d.(buffer := rest)
    else
      var first := handle(d.store, clean);
      Drained(rest, first.store, d.events + first.events, first.ok)
  }

  /** The loop's first step on a blank line: nothing but the line is consumed. */
  lemma BlankStep(buffer: string, store: Store, handle: Handler)
    requires '\n' in buffer && Clean(SplitFirst(buffer).0) == []
    ensures Drain(buffer, store, handle) == Drain(SplitFirst(buffer).1, store, handle)
  {
  }

  /** The loop's first step on a line the handler accepts: its events come before the rest. */
  lemma HandledStep(buffer: string, store: Store, handle: Handler)
    requires '\n' in buffer && Clean(SplitFirst(buffer).0) != []
    requires handle(store, Clean(SplitFirst(buffer).0)).ok
    ensures var first := handle(store, Clean(SplitFirst(buffer).0));
      Drain(buffer, store, handle) == Continue(Drained(SplitFirst(buffer).1, first.store, first.events, true), handle)
  {
  }

  /** Events found before a call stay in front of everything a later call adds. */
  lemma ContinueAfterPrefix(es: seq<Event>, d: Drained, handle: Handler)
    requires d.ok
    ensures Continue(d.(events := es + d.events), handle)
      == Continue(d, handle).(events := es + Continue(d, handle).events)
  {
    var c1, c2 := Continue(d.(events := es + d.events), handle), Continue(d, handle);
    assert c1.buffer == c2.buffer;
    assert c1.store == c2.store;
    assert c1.ok == c2.ok;
    assert c1.events == es + c2.events by {
      var more := Drain(d.buffer, d.store, handle);
      assert (es + d.events) + more.events == es + (d.events + more.events);
    }
  }

  /** A turn of the loop does not change where the loop ends: the loop computes `Drain`. */
  lemma StepKeepsOutcome(d: Drained, handle: Handler)
    requires d.ok && '\n' in d.buffer
    ensures Continue(Step(d, handle), handle) == Continue(d, handle)
  {
    var (line, rest) := SplitFirst(d.buffer);
    var clean := Clean(line);
    if clean == [] {
      BlankStep(d.buffer, d.store, handle);
    } else if handle(d.store, clean).ok {
      HandledStepKeepsOutcome(d, handle);
    }
  }

  lemma HandledStepKeepsOutcome(d: Drained, handle: Handler)
    requires d.ok && '\n' in d.buffer && Clean(SplitFirst(d.buffer).0) != []
    requires handle(d.store, Clean(SplitFirst(d.buffer).0)).ok
    ensures Continue(Step(d, handle), handle) == Continue(d, handle)
  {
    var (line, rest) := SplitFirst(d.buffer);
    var first := handle(d.store, Clean(line));
    HandledStep(d.buffer, d.store, handle);
    var after := Drained(rest, first.store, first.events, true);
    ContinueAfterPrefix(d.events, after, handle);
    assert Step(d, handle) == after.(events := d.events + after.events);
  }

  /**
   * Where the serial port happens to cut the text does not matter: feeding
   * `a` and then `b` ends in the same buffer and store, with the same events
   * in the same order, as feeding `a + b` at once (as long as no line of the
   * first call failed).
   */
  lemma {:induction false} ChunkBoundaryIrrelevant(buffer: string, b: string, store: Store, handle: Handler)
    requires Drain(buffer, store, handle).ok
    ensures Then(Drain(buffer, store, handle), b, handle) == Drain(buffer + b, store, handle)
    decreases |buffer|
  {
    if '\n' !in buffer {
      assert [] + Drain(buffer + b, store, handle).events == Drain(buffer + b, store, handle).events;
    } else {
      SplitFirstAppend(buffer, b);
      var (line, rest) := SplitFirst(buffer);
      var clean := Clean(line);
      if clean == [] {
        BlankStep(buffer, store, handle);
        BlankStep(buffer + b, store, handle);
        ChunkBoundaryIrrelevant(rest, b, store, handle);
      } else {
        var first := handle(store, clean);
        HandledStep(buffer, store, handle);
        HandledStep(buffer + b, store, handle);
        ChunkBoundaryIrrelevant(rest, b, first.store, handle);
        var more := Drain(rest, first.store, handle);
        ContinueAfterPrefix(first.events, more.(buffer := more.buffer + b), handle);
      }
    }
  }

  /** What the handler of the window does to the store, the loop keeps: every series stays valid. */
  lemma {:induction false} DrainKeepsStoreValid(buffer: string, store: Store, window: nat)
    requires window >= 1 && StoreValid(store, window)
    ensures StoreValid(Drain(buffer, store, Handle(window)).store, window)
    decreases |buffer|
  {
    if '\n' in buffer {
      var (line, rest) := SplitFirst(buffer);
      var clean := Clean(line);
      if clean == [] {
        DrainKeepsStoreValid(rest, store, window);
      } else {
        LineEffectKeepsStoreValid(store, window, clean);
        DrainKeepsStoreValid(rest, LineEffect(store, window, clean).store, window);
      }
    }
  }
}
