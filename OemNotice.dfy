/**
 * The OEM command notice of `MainWindow`: a line that contains the marker
 * `Received OEM App Command:` carries a command, the stripped text after the
 * marker's first occurrence (`line.split(marker, 1)[1].strip()`). A tray
 * notification shows it when it is not empty.
 */
module OemNotice {
  import opened Wrappers
  import opened Strings

  const Marker: string := "Received OEM App Command:"

  /** The command a line carries, or `None` when it has no marker or an empty command. */
  function OemPayload(line: string): (r: Option<string>)
    ensures r.Some? ==> Contains(line, Marker)
    ensures r.Some? ==> r.value != [] && Strip(r.value, IsSpace) == r.value
  {
    match FindFrom(line, Marker, 0)
    case None => None
    case Some(k) =>
      var command := Strip(line[k + |Marker|..], IsSpace);
      StripIdempotent(line[k + |Marker|..], IsSpace);
      if command == [] then None else Some(command)
  }

  /**
   * Whatever precedes the first marker and whatever follows it: the command
   * is the stripped remainder, and there is none when that is blank.
   */
  lemma PayloadAfterFirstMarker(before: string, after: string)
    requires forall j :: 0 <= j < |before| ==> !OccursAt(before + Marker + after, Marker, j)
    ensures var command := Strip(after, IsSpace);
      OemPayload(before + Marker + after) == if command == [] then None else Some(command)
  {
    var line := before + Marker + after;
    assert OccursAt(line, Marker, |before|) by {
      assert line[|before|..|before| + |Marker|] == Marker;
    }
    assert FindFrom(line, Marker, 0) == Some(|before|);
    assert line[|before| + |Marker|..] == after;
  }
}
