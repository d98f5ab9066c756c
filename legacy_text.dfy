// `getConsStr` of the legacy graph class: the consumptions of an arc as
// text, initial items first and separated from the cyclic ones by ';'.
module LegacyText {
  import opened Outcomes
  import opened Graph
  import opened RateText
  import opened Legacy

  /**
   * The items of one loop of `getConsStr`: `"c:t"` on a thresholded graph
   * where the threshold differs, `"c"` otherwise; an absent threshold list
   * raises `KeyError` as soon as there is an item.
   */
  function ConsItems(rates: seq<int>, thr: Option<seq<int>>, thresholded: bool): (r: Result<seq<string>>)
    requires thr.Some? ==> |rates| <= |thr.value|
    ensures r.Ok? ==> |r.value| == |rates|
    ensures r.Err? <==> |rates| > 0 && thresholded && thr.None?
  {
    if |rates| == 0 then Ok([])
    else if !thresholded then Ok(IntEntries(rates))
    else if thr.None? then Err(KeyError)
    else Ok(RateEntries(rates, thr.value))
  }

  /** The list lengths `getConsStr` relies on, which the graph invariant provides. */
  predicate TextShaped(a: ArcAttrs, iniCount: nat) {
    (a.thr.Some? ==> |a.thr.value| == |a.cons|) &&
    (a.iniCons.Some? ==> |a.iniCons.value| == iniCount) &&
    (a.iniThr.Some? ==> |a.iniThr.value| == iniCount)
  }

  lemma ShapedText(s: State, i: nat)
    requires ArcIn(s, i)
    ensures TextShaped(s.arcs[i], |s.tasks[s.arcs[i].tgt].iniDurations|)
  {
  }

  /**
   * The initial items, for a target with `iniCount` initial phases: none on
   * a graph that is not initialized; an absent initial consumption list
   * raises `KeyError` as soon as there is an item.
   */
  function IniItems(initialized: bool, thresholded: bool, a: ArcAttrs, iniCount: nat): (r: Result<seq<string>>)
    requires TextShaped(a, iniCount)
  {
    if !initialized || iniCount == 0 then Ok([])
    else if a.iniCons.None? then Err(KeyError)
    else ConsItems(a.iniCons.value, a.iniThr, thresholded)
  }

  /**
   * `getConsStr(arc)`: the initial items joined by commas and followed by
   * ';' when there are any, then the cyclic items each followed by a comma,
   * and the last character dropped.
   */
  function ConsStrOf(s: State, i: nat): Result<string>
    requires ArcIn(s, i)
  {
    var a := s.arcs[i];
    var n := |s.tasks[a.tgt].iniDurations|;
    var ini := IniItems(s.initialized, s.thresholded, a, n);
    var cyc := ConsItems(a.cons, a.thr, s.thresholded);
    if ini.Err? then Err(ini.error)
    else if cyc.Err? then Err(cyc.error)
    else
      var pre := if |ini.value| > 0 then Join(ini.value, ',') + ";" else "";
      Ok(DropLast(pre + Terminated(cyc.value, ',')))
  }

  /** The thresholds the text carries: the stored ones on a thresholded graph, the rates otherwise. */
  function ShownThr(rates: seq<int>, thr: Option<seq<int>>, thresholded: bool): seq<int> {
    if thresholded && thr.Some? then thr.value else rates
  }

  lemma IntEntriesAreRateEntries(rs: seq<int>)
    ensures RateEntries(rs, rs) == IntEntries(rs)
  {
  }

  /** A loop's items, joined, parse back to its rates and the thresholds shown. */
  lemma ConsItemsParse(rates: seq<int>, thr: Option<seq<int>>, thresholded: bool)
    requires |rates| >= 1 && (thr.Some? ==> |rates| == |thr.value|) && ConsItems(rates, thr, thresholded).Ok?
    ensures var j := Join(ConsItems(rates, thr, thresholded).value, ',');
      Free(j, ';') && ParseEntries(Split(j, ',')) == Ok((rates, ShownThr(rates, thr, thresholded)))
  {
    ParseJoinedEntries(rates, ShownThr(rates, thr, thresholded));
    IntEntriesAreRateEntries(rates);
  }

  /** Reading back joined items, with or without an initial part before a ';'. */
  lemma SplitJoinedItems(ini: seq<string>, cyc: seq<string>, ir: seq<int>, it: seq<int>, cr: seq<int>, ct: seq<int>)
    requires Free(Join(cyc, ','), ';') && ParseEntries(Split(Join(cyc, ','), ',')) == Ok((cr, ct))
    requires |ini| > 0 ==> Free(Join(ini, ','), ';') && ParseEntries(Split(Join(ini, ','), ',')) == Ok((ir, it))
    requires |ini| == 0 ==> ir == [] && it == []
    ensures SplitRates((if |ini| > 0 then Join(ini, ',') + ";" else "") + Join(cyc, ',')) == Ok(RateLists(ir, it, cr, ct))
  {
    var normal := Join(cyc, ',');
    if |ini| > 0 {
      SplitTwo(Join(ini, ','), normal);
    } else {
      assert "" + normal == normal;
      SplitFree(normal, ';');
    }
  }

  /**
   * On a target with at least one phase, reading back what `getConsStr`
   * renders with `split_init_cyclo_rates` gives the initial consumptions
   * and thresholds (none when the graph is not initialized) and the cyclic
   * consumptions and thresholds (the rates themselves on a graph that is not
   * thresholded).
   */
  lemma ConsStrRoundTrip(s: State, i: nat)
    requires ArcIn(s, i) && |s.tasks[s.arcs[i].tgt].durations| >= 1 && ConsStrOf(s, i).Ok?
    ensures var a := s.arcs[i];
      var shown := s.initialized && |s.tasks[a.tgt].iniDurations| > 0;
      SplitRates(ConsStrOf(s, i).value) == Ok(RateLists(
        if shown then a.iniCons.value else [],
        if shown then ShownThr(a.iniCons.value, a.iniThr, s.thresholded) else [],
        a.cons, ShownThr(a.cons, a.thr, s.thresholded)))
  {
    var a := s.arcs[i];
    var n := |s.tasks[a.tgt].iniDurations|;
    ShapedText(s, i);
    var shown := s.initialized && n > 0;
    var ini := IniItems(s.initialized, s.thresholded, a, n);
    var cyc := ConsItems(a.cons, a.thr, s.thresholded);
    ConsItemsParse(a.cons, a.thr, s.thresholded);
    var pre := if |ini.value| > 0 then Join(ini.value, ',') + ";" else "";
    AppendedJoin(pre, cyc.value);
    assert ConsStrOf(s, i).value == pre + Join(cyc.value, ',');
    if shown {
      assert |ini.value| == n;
      ConsItemsParse(a.iniCons.value, a.iniThr, s.thresholded);
      SplitJoinedItems(ini.value, cyc.value, a.iniCons.value, ShownThr(a.iniCons.value, a.iniThr, s.thresholded),
        a.cons, ShownThr(a.cons, a.thr, s.thresholded));
    } else {
      SplitJoinedItems(ini.value, cyc.value, [], [], a.cons, ShownThr(a.cons, a.thr, s.thresholded));
    }
  }

  /** `getConsStr`, building the text item by item as the source does. */
  method GetConsStr(s: State, i: nat) returns (r: Result<string>)
    requires ArcIn(s, i)
    ensures r == ConsStrOf(s, i)
  {
    var a := s.arcs[i];
    var ini := IniItems(s.initialized, s.thresholded, a, |s.tasks[a.tgt].iniDurations|);
    if ini.Err? {
      return Err(ini.error);
    }
    var cyc := ConsItems(a.cons, a.thr, s.thresholded);
    if cyc.Err? {
      return Err(cyc.error);
    }
    var text := "";
    if |ini.value| > 0 {
      text := AppendItems("", ini.value);
      assert text == Terminated(ini.value, ',');
      DropLastTerminated(ini.value, ',');
      text := DropLast(text) + ";";
    }
    text := AppendItems(text, cyc.value);
    r := Ok(DropLast(text));
  }
}
