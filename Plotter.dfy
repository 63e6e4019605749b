/**
 * The state `MainWindow` keeps for the line protocol and the plot: the text
 * received but not yet split into lines, the series per key, and the value
 * of the window-size slider. The Qt widgets, the serial thread and the log
 * file are not part of this model.
 */
module Plotter {
  import opened Wrappers
  import opened Strings
  import opened AnchorPattern
  import opened OemNotice
  import opened SeriesStore
  import opened LineHandling
  import opened LineProtocol

  /** The range and start value of `windowSizeSlider`. */
  const MinWindow: nat := 10
  const MaxWindow: nat := 1000
  const DefaultWindow: nat := 100

  class MainWindow {
    /** `self.input_buffer`. */
    var inputBuffer: string
    /** `self.plot_data`. */
    var plotData: Store
    /** `self.windowSizeSlider.value()`. */
    var windowSize: nat

    /** The slider stays in its range and every series fits the window. */
    predicate Valid()
      reads this
    {
      MinWindow <= windowSize <= MaxWindow && StoreValid(plotData, windowSize)
    }

    constructor()
      ensures Valid()
      ensures inputBuffer == "" && plotData == map[] && windowSize == DefaultWindow
    {
      inputBuffer := "";
      plotData := map[];
      windowSize := DefaultWindow;
    }

    /** `init_anchor_data`: an empty series for the key, drawn in the anchor's colour. */
    method InitAnchorData(anchorId: nat, kind: string)
      requires Valid()
      modifies this
      ensures Valid()
      ensures plotData == old(plotData)[SeriesKey(anchorId, kind) := NewSeries(anchorId)]
      ensures inputBuffer == old(inputBuffer) && windowSize == old(windowSize)
    {
      var key := SeriesKey(anchorId, kind);
      var color := if anchorId in AnchorColors then AnchorColors[anchorId] else "k";
      plotData := plotData[key := Series([], [], 0, color)];
      StoreUpdateValid(old(plotData), key, NewSeries(anchorId), windowSize);
    }

    /**
     * The append and trim after a match: the count goes up, the new sample
     * number and the distance go at the end, and when the series has grown
     * past the slider value both lists keep only their last `windowSize`
     * entries.
     */
    method AddSample(key: SeriesKey, distance: real)
      requires Valid() && key in plotData
      modifies this
      ensures Valid()
      ensures plotData == old(plotData)[key := Append(old(plotData)[key], distance, windowSize)]
      ensures inputBuffer == old(inputBuffer) && windowSize == old(windowSize)
    {
      var s := plotData[key];
      ghost var appended := Append(s, distance, windowSize);
      AppendByParts(s, distance, windowSize);
      var count := s.count + 1;
      var x, y := s.x + [count], s.y + [distance];
      if |x| > windowSize {
        x, y := x[|x| - windowSize..], y[|y| - windowSize..];
      }
      assert Series(x, y, count, s.color) == appended;
      AppendValid(s, distance, windowSize);
      StoreUpdateValid(plotData, key, appended, windowSize);
      plotData := plotData[key := Series(x, y, count, s.color)];
    }

    /** A matched reading: the key's series is created when it is new, then the sample is added. */
    method PlotReading(key: SeriesKey, distance: real)
      requires Valid()
      modifies this
      ensures Valid()
      ensures plotData == old(plotData)[key := Append(SeriesFor(old(plotData), key), distance, windowSize)]
      ensures inputBuffer == old(inputBuffer) && windowSize == old(windowSize)
    {
      if key !in plotData {
        InitAnchorData(key.anchorId, key.kind);
        AddSample(key, distance);
        ReplaceTwice(old(plotData), key, NewSeries(key.anchorId), Append(NewSeries(key.anchorId), distance, windowSize));
      } else {
        AddSample(key, distance);
      }
    }

    /** `show_oem_notification`: the notice for the command after the marker, if there is one. */
    method ShowOemNotification(line: string) returns (events: seq<Event>)
      ensures events == NoticeEvents(line)
      ensures events != [] ==> Contains(line, Marker)
    {
      events := [];
      var command := OemPayload(line);
      if command.Some? {
        events := [Notified(command.value)];
      }
    }

    /** The body of the loop of `handle_serial_data` for one stripped, non-blank line. */
    method HandleLine(line: string) returns (events: seq<Event>, ok: bool)
      requires Valid()
      modifies this
      ensures Valid()
      ensures var r := LineEffect(old(plotData), windowSize, line);
        plotData == r.store && events == r.events && ok == r.ok
      ensures inputBuffer == old(inputBuffer) && windowSize == old(windowSize)
    {
      var notice: seq<Event> := [];
      if Contains(line, Marker) {
        notice := ShowOemNotification(line);
      }
      assert notice == NoticeEvents(line);
      var parse := ParseAnchorLine(line);
      ghost var expected := Effect(old(plotData), windowSize, line, notice, parse);
      match parse
      case NoMatch =>
        events, ok := notice + [Unmatched(line)], true;
      case BadNumber(_) =>
        events, ok := notice, false;
      case Reading(anchorId, kind, distance) =>
        var key := SeriesKey(anchorId, kind);
        PlotReading(key, distance);
        events, ok := notice + [Plotted(key, plotData[key].count, distance)], true;
      assert plotData == expected.store && events == expected.events && ok == expected.ok;
    }

    /**
     * `handle_serial_data`: the chunk is appended to the buffer and every
     * complete line in it is handled in order. The result is `Drain` of the
     * old buffer followed by the chunk.
     */
    method HandleSerialData(chunk: string) returns (events: seq<Event>, ok: bool)
      requires Valid()
      modifies this
      ensures Valid()
      ensures var d := Drain(old(inputBuffer) + chunk, old(plotData), Handle(windowSize));
        inputBuffer == d.buffer && plotData == d.store && events == d.events && ok == d.ok
      ensures windowSize == old(windowSize)
    {
      inputBuffer := inputBuffer + chunk;
      events, ok := [], true;
      ghost var handle := Handle(windowSize);
      ghost var start := Drained(inputBuffer, plotData, events, ok);
      assert Continue(start, handle) == Drain(inputBuffer, plotData, handle) by {
        var d := Drain(inputBuffer, plotData, handle);
        assert [] + d.events == d.events;
      }
      while ok && '\n' in inputBuffer
        invariant Valid() && windowSize == old(windowSize)
        invariant Continue(Drained(inputBuffer, plotData, events, ok), handle) == Continue(start, handle)
        decreases |inputBuffer|
      {
        ghost var here := Drained(inputBuffer, plotData, events, ok);
        StepKeepsOutcome(here, handle);
        var line, rest := SplitFirst(inputBuffer).0, SplitFirst(inputBuffer).1;
        inputBuffer := rest;
        var clean := Strip(Strip(line, IsCR), IsSpace);
        if clean != [] {
          var more;
          more, ok := HandleLine(clean);
          events := events + more;
        }
        assert Drained(inputBuffer, plotData, events, ok) == Step(here, handle);
      }
      assert events + [] == events;
    }

    /** The body of the loop of `update_window_size` for one key. */
    method TrimSeries(key: SeriesKey, value: nat)
      requires value >= 1 && key in plotData && |plotData[key].x| == |plotData[key].y|
      modifies this
      ensures plotData == old(plotData)[key := Trim(old(plotData)[key], value)]
      ensures inputBuffer == old(inputBuffer) && windowSize == old(windowSize)
    {
      var s := plotData[key];
      if |s.x| > value {
        s := s.(x := s.x[|s.x| - value..], y := s.y[|s.y| - value..]);
      }
      plotData := plotData[key := s];
    }

    /** The loop of `update_window_size`: every series is trimmed to `value`, one key at a time. */
    method TrimAll(value: nat)
      requires value >= 1 && StoreValid(plotData, windowSize)
      modifies this
      ensures plotData == ResizeAll(old(plotData), value)
      ensures inputBuffer == old(inputBuffer) && windowSize == old(windowSize)
    {
      ghost var before := plotData;
      var pending := plotData.Keys;
      while pending != {}
        invariant pending <= plotData.Keys == before.Keys
        invariant forall k :: k in pending ==> plotData[k] == before[k]
        invariant forall k :: k in plotData && k !in pending ==> plotData[k] == Trim(before[k], value)
        invariant inputBuffer == old(inputBuffer) && windowSize == old(windowSize)
        decreases |pending|
      {
        var key :| key in pending;
        assert SeriesValid(before[key], windowSize);
        TrimSeries(key, value);
        pending := pending - {key};
      }
      ghost var resized := ResizeAll(before, value);
      assert plotData.Keys == resized.Keys;
      assert forall k :: k in plotData ==> plotData[k] == resized[k];
    }

    /** `update_window_size`: the slider now reads `value` and every series is trimmed to it. */
    method UpdateWindowSize(value: nat)
      requires Valid() && MinWindow <= value <= MaxWindow
      modifies this
      ensures Valid()
      ensures windowSize == value && plotData == ResizeAll(old(plotData), value)
      ensures inputBuffer == old(inputBuffer)
    {
      TrimAll(value);
      windowSize := value;
      ResizeValid(old(plotData), old(windowSize), value);
    }

    /** `clear_plot`: every series is dropped. */
    method ClearPlot()
      requires Valid()
      modifies this
      ensures Valid()
      ensures plotData == map[]
      ensures inputBuffer == old(inputBuffer) && windowSize == old(windowSize)
    {
      plotData := map[];
    }

    /** The reset at the end of `stop_serial`: text not yet split into lines is discarded. */
    method StopSerial()
      requires Valid()
      modifies this
      ensures Valid()
      ensures inputBuffer == "" && plotData == old(plotData) && windowSize == old(windowSize)
    {
      inputBuffer := "";
    }
  }
}
