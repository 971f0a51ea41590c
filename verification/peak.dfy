/** The peak-window test that decides which mean inter-arrival time the
    arrival process draws from. */
module Peak {

  /** A configured peak window `[start, end]`. */
  datatype Window = Window(start: real, end: real)

  /** The window test the arrival loop applies: closed at both ends. */
  predicate Covers(w: Window, now: real)
  {
    w.start <= now <= w.end
  }

  /** Scans the windows in order and stops at the first one covering `now`. */
  function InPeak(now: real, windows: seq<Window>): (b: bool)
    ensures b <==> exists i :: 0 <= i < |windows| && Covers(windows[i], now)
  {
    if |windows| == 0 then false
    else if Covers(windows[0], now) then true
    else
      assert forall i :: 1 <= i < |windows| ==> windows[i] == windows[1..][i - 1];
      InPeak(now, windows[1..])
  }

  /** The mean inter-arrival time used for the next draw: the peak mean when
      some window covers `now`, the normal mean otherwise. */
  function ArrivalMean(now: real, windows: seq<Window>, normalMean: real, peakMean: real): (m: real)
    ensures (exists i :: 0 <= i < |windows| && Covers(windows[i], now)) ==> m == peakMean
    ensures (forall i :: 0 <= i < |windows| ==> !Covers(windows[i], now)) ==> m == normalMean
  {
    if InPeak(now, windows) then peakMean else normalMean
  }

  /** Both end points of a window count as peak time. */
  lemma EndPointsArePeak(windows: seq<Window>, i: nat, normalMean: real, peakMean: real)
    requires i < |windows| && windows[i].start <= windows[i].end
    ensures ArrivalMean(windows[i].start, windows, normalMean, peakMean) == peakMean
    ensures ArrivalMean(windows[i].end, windows, normalMean, peakMean) == peakMean
  {
  }
}
