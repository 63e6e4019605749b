/**
 * What `MainWindow.handle_serial_data` does with one stripped, non-blank
 * line: it may raise the OEM notice, and it may add a sample to the series
 * of the anchor and measurement type the line reports.
 */
module LineHandling {
  import opened Wrappers
  import opened Strings
  import opened AnchorPattern
  import opened OemNotice
  import opened SeriesStore

  /** What the window shows for one line. */
  datatype Event =
    | Notified(command: string)                           // tray notification "OEM Command"
    | Plotted(key: SeriesKey, index: int, distance: real) // a point added to a curve
    | Unmatched(line: string)                             // the "(Debug) No anchor match" print

  /** The notice a line raises, if any. */
  function NoticeEvents(line: string): (r: seq<Event>)
    ensures |r| <= 1
    ensures r != [] <==> OemPayload(line).Some?
    ensures r != [] ==> r[0] == Notified(OemPayload(line).value)
  {
    match OemPayload(line)
    case None => []
    case Some(command) => [Notified(command)]
  }

  /** The store after one line, the events it caused, and whether `float` raised. */
  datatype LineOutcome = LineOutcome(store: Store, events: seq<Event>, ok: bool)

  /** The series a reading for `key` is appended to: the existing one, or a fresh one. */
  function SeriesFor(store: Store, key: SeriesKey): (s: Series)
    ensures key in store ==> s == store[key]
    ensures key !in store ==> s.x == [] && s.y == [] && s.count == 0 && s.color == ColorOf(key.anchorId)
  {
    if key in store then store[key] else NewSeries(key.anchorId)
  }

  /**
   * What the loop does with a line once the notice check and the anchor
   * parse have been made: a line that does not match leaves the store alone;
   * a token `float` rejects raises, after the notice and before the store is
   * touched; a reading creates its series when the key is new, then appends
   * to it.
   */
  function Effect(store: Store, window: nat, line: string, notice: seq<Event>, parse: AnchorParse): LineOutcome
    requires window >= 1
  {
    match parse
    case NoMatch => LineOutcome(store, notice + [Unmatched(line)], true)
    case BadNumber(_) => LineOutcome(store, notice, false)
    case Reading(id, kind, v) =>
      var key := SeriesKey(id, kind);
      var updated := Append(SeriesFor(store, key), v, window);
      LineOutcome(store[key := updated], notice + [Plotted(key, updated.count, v)], true)
  }

  /**
   * One stripped, non-blank line. The notice comes first and does not stop
   * the anchor parse.
   */
  function LineEffect(store: Store, window: nat, line: string): LineOutcome
    requires window >= 1
  {
    Effect(store, window, line, NoticeEvents(line), ParseAnchorLine(line))
  }

  /** A line fails exactly when it matches the pattern with a number `float` rejects. */
  lemma FailsOnlyOnBadNumber(store: Store, window: nat, line: string)
    requires window >= 1
    ensures !LineEffect(store, window, line).ok <==> ParseAnchorLine(line).BadNumber?
  {
  }

  /**
   * The notice of a line is shown before anything else the line does, and it
   * is shown even when the parse then fails.
   */
  lemma NoticeComesFirst(store: Store, window: nat, line: string, notice: seq<Event>, p: AnchorParse)
    requires window >= 1
    ensures var r := Effect(store, window, line, notice, p);
      |notice| <= |r.events| && r.events[..|notice|] == notice
  {
    var r := Effect(store, window, line, notice, p);
    if p.NoMatch? {
      assert r.events == notice + [Unmatched(line)];
    } else if p.Reading? {
      var key := SeriesKey(p.anchorId, p.kind);
      var u := Append(SeriesFor(store, key), p.distance, window);
      assert r.events == notice + [Plotted(key, u.count, p.distance)];
    }
  }

  /** Whether a notice was raised has no influence on what the parse does to the store. */
  lemma NoticeDoesNotStopParse(store: Store, window: nat, line: string, n1: seq<Event>, n2: seq<Event>, p: AnchorParse)
    requires window >= 1
    ensures var r1, r2 := Effect(store, window, line, n1, p), Effect(store, window, line, n2, p);
      r1.store == r2.store && r1.ok == r2.ok
  {
  }

  /** A line that is not a reading leaves every series as it was. */
  lemma OnlyReadingsChangeTheStore(store: Store, window: nat, line: string)
    requires window >= 1 && !ParseAnchorLine(line).Reading?
    ensures LineEffect(store, window, line).store == store
  {
  }

  /**
   * A reading adds one sample to the series of its key (created in the
   * anchor's colour when the key is new) and leaves every other series alone.
   */
  lemma ReadingAppendsToItsSeries(store: Store, window: nat, line: string, notice: seq<Event>, p: AnchorParse)
    requires window >= 1 && p.Reading?
    ensures var key := SeriesKey(p.anchorId, p.kind);
      var r := Effect(store, window, line, notice, p);
      var before := if key in store then store[key].count else 0;
      && r.ok
      && r.store.Keys == store.Keys + {key}
      && (forall k :: k in store && k != key ==> r.store[k] == store[k])
      && r.store[key].count == before + 1
      && r.store[key].color == (if key in store then store[key].color else ColorOf(p.anchorId))
      && r.store[key].x[|r.store[key].x| - 1] == before + 1
      && r.store[key].y[|r.store[key].y| - 1] == p.distance
  {
    var key := SeriesKey(p.anchorId, p.kind);
    var u := Append(SeriesFor(store, key), p.distance, window);
    assert Effect(store, window, line, notice, p).store == store[key := u];
  }

  /** A reading is reported after the notice, with its new sample number. */
  lemma ReadingIsReported(store: Store, window: nat, line: string, notice: seq<Event>, p: AnchorParse)
    requires window >= 1 && p.Reading?
    ensures var key := SeriesKey(p.anchorId, p.kind);
      var before := if key in store then store[key].count else 0;
      Effect(store, window, line, notice, p).events == notice + [Plotted(key, before + 1, p.distance)]
  {
    var key := SeriesKey(p.anchorId, p.kind);
    var s := SeriesFor(store, key);
    var u := Append(s, p.distance, window);
    assert u.count == s.count + 1;
    assert Effect(store, window, line, notice, p).events == notice + [Plotted(key, u.count, p.distance)];
  }

  /**
   * A line that carries both a command and a reading has both effects: the
   * notice with the command is shown, then the reading is appended to its
   * series and drawn.
   */
  lemma CommandAndReadingBothTakeEffect(store: Store, window: nat, line: string, command: string)
    requires window >= 1 && OemPayload(line) == Some(command) && ParseAnchorLine(line).Reading?
    ensures NoticeEvents(line) == [Notified(command)]
    ensures LineEffect(store, window, line).ok
    ensures var p := ParseAnchorLine(line);
      var key := SeriesKey(p.anchorId, p.kind);
      var before := if key in store then store[key].count else 0;
      LineEffect(store, window, line).events == NoticeEvents(line) + [Plotted(key, before + 1, p.distance)]
    ensures var p := ParseAnchorLine(line);
      var key := SeriesKey(p.anchorId, p.kind);
      LineEffect(store, window, line).store == store[key := Append(SeriesFor(store, key), p.distance, window)]
  {
    ReadingIsReported(store, window, line, NoticeEvents(line), ParseAnchorLine(line));
  }

  /** Every line keeps every series within the window and numbered consecutively. */
  lemma EffectKeepsStoreValid(store: Store, window: nat, line: string, notice: seq<Event>, p: AnchorParse)
    requires window >= 1 && StoreValid(store, window)
    ensures StoreValid(Effect(store, window, line, notice, p).store, window)
  {
    if p.Reading? {
      var key := SeriesKey(p.anchorId, p.kind);
      var s := SeriesFor(store, key);
      assert SeriesValid(s, window);
      AppendValid(s, p.distance, window);
      StoreUpdateValid(store, key, Append(s, p.distance, window), window);
    }
  }

  /** After `clear_plot` the first reading of any key is sample number 1 again. */
  lemma ClearRestartsIndex(window: nat, line: string)
    requires window >= 1 && ParseAnchorLine(line).Reading?
    ensures var p := ParseAnchorLine(line);
      LineEffect(map[], window, line).events
        == NoticeEvents(line) + [Plotted(SeriesKey(p.anchorId, p.kind), 1, p.distance)]
  {
    ReadingIsReported(map[], window, line, NoticeEvents(line), ParseAnchorLine(line));
  }

  lemma LineEffectKeepsStoreValid(store: Store, window: nat, line: string)
    requires window >= 1 && StoreValid(store, window)
    ensures StoreValid(LineEffect(store, window, line).store, window)
  {
    EffectKeepsStoreValid(store, window, line, NoticeEvents(line), ParseAnchorLine(line));
  }
}
