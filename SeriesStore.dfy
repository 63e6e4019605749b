/**
 * The series kept per `(anchor_id, type_str)` key in `MainWindow.plot_data`:
 * parallel lists `x` (sample numbers) and `y` (distances), a running
 * `count`, and the pen colour of the series' curve. A series keeps only the
 * most recent `window` samples, oldest evicted first.
 */
module SeriesStore {

  /** A key of `plot_data`: the anchor id and the measurement type. */
  datatype SeriesKey = SeriesKey(anchorId: nat, kind: string)

  /** One entry of `plot_data`; `color` stands for the curve drawn with that pen. */
  datatype Series = Series(x: seq<int>, y: seq<real>, count: nat, color: string)

  /** `plot_data` itself. */
  type Store = map<SeriesKey, Series>

  /** `MainWindow.anchor_colors`. */
  const AnchorColors: map<nat, string> :=
    map[1 := "r", 2 := "g", 3 := "b", 4 := "m", 5 := "y", 6 := "k"]

  /**
   * `anchor_colors.get(anchor_id, 'k')`: anchors 1 to 5 each have their own
   * colour, and anchor 6 shares black with every anchor not in the table.
   */
  function ColorOf(anchorId: nat): (c: string)
    ensures c in {"r", "g", "b", "m", "y", "k"}
    ensures c == "k" <==> !(1 <= anchorId <= 5)
  {
    if anchorId in AnchorColors then AnchorColors[anchorId] else "k"
  }

  /** No two anchors share a colour, except that anchor 6 and unlisted anchors are all black. */
  lemma ColorsDistinct(a: nat, b: nat)
    requires a != b && 1 <= a <= 5
    ensures ColorOf(a) != ColorOf(b)
  {
  }

  /** `init_anchor_data`: no samples yet, and a curve in the anchor's colour. */
  function NewSeries(anchorId: nat): Series {
    Series([], [], 0, ColorOf(anchorId))
  }

  /** Python's `xs[-n:]` for `n >= 1`: the last `n` elements, or all of them when there are fewer. */
  function Last<T>(xs: seq<T>, n: nat): (r: seq<T>)
    requires n >= 1
    ensures |r| == if |xs| <= n then |xs| else n
    ensures r == xs[|xs| - |r|..]
  {
    if |xs| <= n then xs else xs[|xs| - n..]
  }

  /** Keeping the last `n` of a longer sequence, then adding more, then keeping the last `n` again, is keeping the last `n` once. */
  lemma LastOfLast<T>(a: seq<T>, b: seq<T>, n: nat)
    requires n >= 1
    ensures Last(Last(a, n) + b, n) == Last(a + b, n)
  {
    var la := Last(a, n);
    var t, ab := la + b, a + b;
    var r1, r2 := Last(t, n), Last(ab, n);
    assert |r1| == |r2|;
    forall i | 0 <= i < |r1| ensures r1[i] == r2[i] {
      var j := |t| - |r1| + i;
      assert r1[i] == t[j] && r2[i] == ab[|a| - |la| + j];
      if j < |la| {
        assert t[j] == la[j] == a[|a| - |la| + j];
      } else {
        assert t[j] == b[j - |la|];
      }
    }
  }

  /**
   * The trim of `handle_serial_data` and `update_window_size`: a series
   * longer than `window` keeps its last `window` points in both lists.
   */
  function Trim(s: Series, window: nat): (r: Series)
    requires window >= 1
    ensures r.count == s.count && r.color == s.color
    ensures |r.x| <= window
  {
    if |s.x| > window then s.(x := Last(s.x, window), y := Last(s.y, window)) else s
  }

  /**
   * Trimming keeps the lists aligned and keeps their most recent points; a
   * series that already fits the window is left as it is.
   */
  lemma TrimKeepsLatest(s: Series, window: nat)
    requires window >= 1 && |s.x| == |s.y|
    ensures var r := Trim(s, window);
      && r.x == Last(s.x, window) && r.y == Last(s.y, window)
      && (|s.x| <= window ==> r == s)
  {
  }

  /**
   * What a series may look like: aligned lists no longer than `window`, and
   * `x` the run of consecutive sample numbers that ends at `count`.
   */
  predicate SeriesValid(s: Series, window: nat) {
    && |s.x| == |s.y| <= window
    && |s.x| <= s.count
    && forall i :: 0 <= i < |s.x| ==> s.x[i] == s.count - |s.x| + 1 + i
  }

  predicate StoreValid(m: Store, window: nat) {
    forall k :: k in m ==> SeriesValid(m[k], window)
  }

  /** Replacing one series by a valid one keeps the store valid. */
  lemma StoreUpdateValid(m: Store, key: SeriesKey, s: Series, window: nat)
    requires StoreValid(m, window) && SeriesValid(s, window)
    ensures StoreValid(m[key := s], window)
  {
  }

  /** Replacing the same key twice keeps the second value only. */
  lemma ReplaceTwice(m: Store, key: SeriesKey, first: Series, second: Series)
    ensures m[key := first][key := second] == m[key := second]
  {
  }

  /** One matched sample (plotter.py, the append and trim after a match). */
  function Append(s: Series, v: real, window: nat): (r: Series)
    requires window >= 1
    ensures r.count == s.count + 1 && r.color == s.color
    ensures |r.x| > 0 && r.x[|r.x| - 1] == r.count
    ensures |r.y| > 0 && r.y[|r.y| - 1] == v
  {
    var count := s.count + 1;
    Trim(s.(count := count, x := s.x + [count], y := s.y + [v]), window)
  }

  /** `Append` as the two cases of the trim: the grown lists, cut to their last `window` entries when longer. */
  lemma AppendByParts(s: Series, v: real, window: nat)
    requires window >= 1 && |s.x| == |s.y|
    ensures var c := s.count + 1;
      var x, y := s.x + [c], s.y + [v];
      Append(s, v, window)
        == if |x| > window then Series(x[|x| - window..], y[|y| - window..], c, s.color)
           else Series(x, y, c, s.color)
  {
  }

  /** With aligned lists, the distances after a sample are the last `window` of the old ones and the new one. */
  lemma AppendKeepsLatest(s: Series, v: real, window: nat)
    requires window >= 1 && |s.x| == |s.y|
    ensures var r := Append(s, v, window);
      |r.x| == |r.y| && r.y == Last(s.y + [v], window)
  {
  }

  /** Appending keeps a series valid. */
  lemma AppendValid(s: Series, v: real, window: nat)
    requires window >= 1 && SeriesValid(s, window)
    ensures SeriesValid(Append(s, v, window), window)
  {
    var c := s.count + 1;
    var grown := s.(count := c, x := s.x + [c], y := s.y + [v]);
    forall i | 0 <= i < |grown.x| ensures grown.x[i] == grown.count - |grown.x| + 1 + i {
      if i < |s.x| {
        assert grown.x[i] == s.x[i];
      }
    }
    assert SeriesValid(grown, window + 1);
    TrimValid(grown, window + 1, window);
  }

  /** Trimming a valid series to any window leaves it valid for that window. */
  lemma TrimValid(s: Series, window: nat, v: nat)
    requires v >= 1 && SeriesValid(s, window)
    ensures SeriesValid(Trim(s, v), v)
  {
    var r := Trim(s, v);
    if |s.x| > v {
      forall i | 0 <= i < |r.x| ensures r.x[i] == r.count - |r.x| + 1 + i {
        assert r.x[i] == s.x[|s.x| - v + i];
      }
    }
  }

  /** Trimming twice to the same window is trimming once. */
  lemma TrimIdempotent(s: Series, v: nat)
    requires v >= 1
    ensures Trim(Trim(s, v), v) == Trim(s, v)
  {
  }

  /** Samples arriving one after another for one key. */
  function AppendAll(s: Series, vs: seq<real>, window: nat): Series
    requires window >= 1
    decreases |vs|
  {
    if vs == [] then s else AppendAll(Append(s, vs[0], window), vs[1..], window)
  }

  /** However many samples arrive, a valid series stays valid and counts every one of them. */
  lemma {:induction false} AppendAllValid(s: Series, vs: seq<real>, window: nat)
    requires window >= 1 && SeriesValid(s, window)
    ensures AppendAll(s, vs, window).count == s.count + |vs|
    ensures SeriesValid(AppendAll(s, vs, window), window)
    decreases |vs|
  {
    if vs != [] {
      AppendValid(s, vs[0], window);
      AppendAllValid(Append(s, vs[0], window), vs[1..], window);
    }
  }

  /**
   * A series is a window over everything it ever received: after any samples
   * its `y` is the last `window` values of the whole history, oldest evicted
   * first.
   */
  lemma {:induction false} AppendAllKeepsLatest(s: Series, vs: seq<real>, window: nat)
    requires window >= 1 && |s.x| == |s.y| <= window
    ensures AppendAll(s, vs, window).y == Last(s.y + vs, window)
    decreases |vs|
  {
    if vs == [] {
      assert s.y + vs == s.y;
      assert Last(s.y, window) == s.y;
    } else {
      var ys := s.y + [vs[0]];
      assert ys + vs[1..] == s.y + vs by {
        assert vs == [vs[0]] + vs[1..];
      }
      var s1 := Append(s, vs[0], window);
      AppendKeepsLatest(s, vs[0], window);
      assert |s1.x| == |s1.y| <= window && s1.y == Last(ys, window);
      AppendAllKeepsLatest(s1, vs[1..], window);
      LastOfLast(ys, vs[1..], window);
      calc {
        AppendAll(s, vs, window).y;
        AppendAll(s1, vs[1..], window).y;
        Last(Last(ys, window) + vs[1..], window);
        Last(s.y + vs, window);
      }
    }
  }

  /** `update_window_size`: every series trimmed to the new window. */
  function ResizeAll(m: Store, v: nat): (r: Store)
    requires v >= 1
    ensures r.Keys == m.Keys
  {
    map k | k in m :: Trim(m[k], v)
  }

  /** Resizing to the same window twice is resizing once. */
  lemma ResizeIdempotent(m: Store, v: nat)
    requires v >= 1
    ensures ResizeAll(ResizeAll(m, v), v) == ResizeAll(m, v)
  {
    var once := ResizeAll(m, v);
    forall k | k in once ensures Trim(once[k], v) == once[k] {
      TrimIdempotent(m[k], v);
    }
  }

  /** Resizing keeps the store valid for the new window. */
  lemma ResizeValid(m: Store, window: nat, v: nat)
    requires v >= 1 && StoreValid(m, window)
    ensures StoreValid(ResizeAll(m, v), v)
  {
    forall k | k in m ensures SeriesValid(Trim(m[k], v), v) {
      TrimValid(m[k], window, v);
    }
  }
}
