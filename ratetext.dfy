// The textual rate and duration encoding: the getters that render an arc's
// lists ("1:2,2;3:4,6": initial part, ';', cyclic part; "r:t" where the
// threshold differs from the rate) and the parser functions that read them.
module RateText {
  import opened Outcomes
  import opened Text
  import opened Graph
  import Fractions

  // ---------------------------------------------------------------------
  // Python's str.split and str.join on one separator

  predicate Free(s: string, c: char) { forall k :: 0 <= k < |s| ==> s[k] != c }

  /** `s.split(c)`: always at least one piece. */
  function Split(s: string, c: char): (r: seq<string>)
    ensures |r| >= 1
    decreases |s|
  {
    if |s| == 0 then [""]
    else
      var rest := Split(s[1..], c);
      if s[0] == c then [""] + rest else [[s[0]] + rest[0]] + rest[1..]
  }

  /** `c.join(parts)`. */
  function Join(parts: seq<string>, c: char): string
    decreases |parts|
  {
    if |parts| == 0 then ""
    else if |parts| == 1 then parts[0]
    else parts[0] + [c] + Join(parts[1..], c)
  }

  /** Text without the separator is one piece. */
  lemma {:induction false} SplitFree(p: string, c: char)
    requires Free(p, c)
    ensures Split(p, c) == [p]
    decreases |p|
  {
    if |p| > 0 {
      SplitFree(p[1..], c);
      assert [p[0]] + p[1..] == p;
    }
  }

  /** A separator after a free piece starts the next piece. */
  lemma {:induction false} SplitCons(p: string, c: char, rest: string)
    requires Free(p, c)
    ensures Split(p + [c] + rest, c) == [p] + Split(rest, c)
    decreases |p|
  {
    var s := p + [c] + rest;
    if |p| == 0 {
      assert s[1..] == rest;
    } else {
      assert s[1..] == p[1..] + [c] + rest;
      SplitCons(p[1..], c, rest);
      assert [p[0]] + p[1..] == p;
    }
  }

  /** Splitting a join of free pieces gives the pieces back. */
  lemma {:induction false} SplitJoin(parts: seq<string>, c: char)
    requires |parts| >= 1
    requires forall i :: 0 <= i < |parts| ==> Free(parts[i], c)
    ensures Split(Join(parts, c), c) == parts
    decreases |parts|
  {
    if |parts| == 1 {
      SplitFree(parts[0], c);
    } else {
      SplitJoin(parts[1..], c);
      SplitCons(parts[0], c, Join(parts[1..], c));
      assert [parts[0]] + parts[1..] == parts;
    }
  }

  /** A join is free of a character its pieces and separator avoid. */
  lemma {:induction false} JoinFree(parts: seq<string>, c: char, d: char)
    requires c != d
    requires forall i :: 0 <= i < |parts| ==> Free(parts[i], d)
    ensures Free(Join(parts, c), d)
    decreases |parts|
  {
    if |parts| > 1 {
      JoinFree(parts[1..], c, d);
    }
  }

  /** The string the getters' loops build before dropping the last separator: each piece followed by `c`. */
  function Terminated(parts: seq<string>, c: char): string
    decreases |parts|
  {
    if |parts| == 0 then "" else Terminated(parts[..|parts| - 1], c) + parts[|parts| - 1] + [c]
  }

  lemma {:induction false} JoinSnoc(parts: seq<string>, x: string, c: char)
    requires |parts| >= 1
    ensures Join(parts + [x], c) == Join(parts, c) + [c] + x
    decreases |parts|
  {
    if |parts| > 1 {
      assert (parts + [x])[1..] == parts[1..] + [x];
      JoinSnoc(parts[1..], x, c);
    }
  }

  /** Dropping the final separator of the loop's string leaves the join. */
  lemma {:induction false} TerminatedJoin(parts: seq<string>, c: char)
    requires |parts| >= 1
    ensures Terminated(parts, c) == Join(parts, c) + [c]
    decreases |parts|
  {
    var n := |parts|;
    if n > 1 {
      TerminatedJoin(parts[..n - 1], c);
      JoinSnoc(parts[..n - 1], parts[n - 1], c);
      assert parts[..n - 1] + [parts[n - 1]] == parts;
    }
  }

  /** `result[0:-1]`: the loop's string without its last character ("" stays ""). */
  function DropLast(s: string): string { if |s| == 0 then "" else s[..|s| - 1] }

  lemma DropLastTerminated(parts: seq<string>, c: char)
    ensures DropLast(Terminated(parts, c)) == Join(parts, c)
  {
    if |parts| >= 1 {
      TerminatedJoin(parts, c);
      assert (Join(parts, c) + [c])[..|Join(parts, c) + [c]| - 1] == Join(parts, c);
    }
  }

  // ---------------------------------------------------------------------
  // Rendering

  /** One consumption entry: `"c:t"` where the threshold differs, `"c"` otherwise. */
  function RateEntry(r: int, t: int): string {
    if r != t then IntStr(r) + ":" + IntStr(t) else IntStr(r)
  }

  function RateEntries(rs: seq<int>, ts: seq<int>): (e: seq<string>)
    requires |rs| <= |ts|
    ensures |e| == |rs|
  {
    seq(|rs|, i requires 0 <= i < |rs| => RateEntry(rs[i], ts[i]))
  }

  function IntEntries(rs: seq<int>): (e: seq<string>)
    ensures |e| == |rs|
  {
    seq(|rs|, i requires 0 <= i < |rs| => IntStr(rs[i]))
  }

  /** `str(float(d))` for an integral duration: the digits followed by `.0`. */
  function FloatStr(d: int): string { IntStr(d) + ".0" }

  function FloatEntries(ds: seq<int>): (e: seq<string>)
    ensures |e| == |ds|
  {
    seq(|ds|, i requires 0 <= i < |ds| => FloatStr(ds[i]))
  }

  /** The lists of an arc the getters read are as long as the phase counts that index them. */
  predicate TextShaped(k: Kind, a: Arc, ipcSrc: nat, ipcTgt: nat) {
    |a.cons| >= 1 && |a.prod| >= 1 &&
    (IsSdf(k) ==> |a.cons| == 1 && |a.prod| == 1 && ipcSrc == 0 && ipcTgt == 0) &&
    (k == CSDF ==> ipcSrc == 0 && ipcTgt == 0) &&
    (IsPcg(k) ==> |a.thr| == |a.cons| && |a.iniCons| == |a.iniThr| == ipcTgt && |a.iniProd| == ipcSrc)
  }

  lemma ShapedText(g: Graph, i: nat)
    requires Shaped(g) && i < |g.arcs|
    ensures TextShaped(g.kind, g.arcs[i], IniPhaseCount(g, g.arcs[i].src), IniPhaseCount(g, g.arcs[i].tgt))
  {
  }

  /** `get_cons_str` of class `k` on arc `a`, whose target has `ipc` initial phases. */
  function ConsText(k: Kind, a: Arc, ipc: nat): string
    requires TextShaped(k, a, 0, ipc) || TextShaped(k, a, |a.iniProd|, ipc)
  {
    match k
    case SDF => IntStr(a.cons[0])
    case CSDF => Join(IntEntries(a.cons), ',')
    case PCG =>
      var normal := Join(RateEntries(a.cons, a.thr), ',');
      if ipc > 0 then Join(RateEntries(a.iniCons, a.iniThr), ',') + ";" + normal
      else normal
  }

  /** `get_prod_str` of class `k` on arc `a`, whose source has `ipc` initial phases. */
  function ProdText(k: Kind, a: Arc, ipc: nat): string
    requires |a.prod| >= 1
  {
    match k
    case SDF => IntStr(a.prod[0])
    case CSDF => Join(IntEntries(a.prod), ',')
    case PCG =>
      var normal := Join(IntEntries(a.prod), ',');
      if ipc > 0 then Join(IntEntries(a.iniProd), ',') + ";" + normal
      else normal
  }

  /** `get_cons_str` of the graph's class for arc `i`. */
  function ConsStr(g: Graph, i: nat): string
    requires Shaped(g) && i < |g.arcs|
  {
    ShapedText(g, i);
    ConsText(g.kind, g.arcs[i], IniPhaseCount(g, g.arcs[i].tgt))
  }

  /** `get_prod_str` of the graph's class for arc `i`. */
  function ProdStr(g: Graph, i: nat): string
    requires Shaped(g) && i < |g.arcs|
  {
    ProdText(g.kind, g.arcs[i], IniPhaseCount(g, g.arcs[i].src))
  }

  /** `get_duration_str` of the graph's class for task `t` (the PCG class prints floats). */
  function DurationStr(g: Graph, t: nat): string
    requires Shaped(g) && t < |g.tasks|
  {
    var d := g.tasks[t].durations;
    match g.kind
    case SDF => IntStr(d[0])
    case CSDF => Join(IntEntries(d), ',')
    case PCG =>
      var normal := if |d| > 0 then Join(FloatEntries(d), ',') else "";
      if |g.tasks[t].iniDurations| > 0 then Join(FloatEntries(g.tasks[t].iniDurations), ',') + ";" + normal
      else normal
  }

  // ---------------------------------------------------------------------
  // Parsing

  /** One item of a rate list: `"r"` gives rate and threshold `r`; `"r:t"` gives rate `r` and threshold `t`. */
  function ParseEntry(v: string): Result<(int, int)> {
    var q := Split(v, ':');
    if |q| == 1 then
      var r := ParseInt(v);
      if r.Err? then Err(r.error) else Ok((r.value, r.value))
    else if |q| == 2 then
      var r := ParseInt(q[0]);
      var t := ParseInt(q[1]);
      if r.Err? then Err(r.error) else if t.Err? then Err(t.error) else Ok((r.value, t.value))
    else Err(ValueError)
  }

  /** The items of a comma-separated list, left to right: the rate list and the threshold list. */
  function ParseEntries(vs: seq<string>): (r: Result<(seq<int>, seq<int>)>)
    ensures r.Ok? ==> |r.value.0| == |vs| && |r.value.1| == |vs|
    decreases |vs|
  {
    if |vs| == 0 then Ok(([], []))
    else
      var front := ParseEntries(vs[..|vs| - 1]);
      if front.Err? then front
      else
        var e := ParseEntry(vs[|vs| - 1]);
        if e.Err? then Err(e.error)
        else Ok((front.value.0 + [e.value.0], front.value.1 + [e.value.1]))
  }

  /** What `split_init_cyclo_rates` returns: `((rinit, tinit), (rcyclo, tcyclo))`. */
  datatype RateLists = RateLists(iniRates: seq<int>, iniThresholds: seq<int>, rates: seq<int>, thresholds: seq<int>)

  /** The initial and cyclic parts of a rate string, `Split` on ';' (at most two parts). */
  function InitPart(parts: seq<string>): seq<string>
    requires |parts| >= 1
  {
    if |parts| == 2 then Split(parts[0], ',') else []
  }

  /** `split_init_cyclo_rates`: more than one ';' is refused; without ';' the initial lists are empty. */
  function SplitRates(s: string): Result<RateLists> {
    var parts := Split(s, ';');
    if |parts| > 2 then Err(BadFormat)
    else
      var ini := ParseEntries(InitPart(parts));
      var cyc := ParseEntries(Split(parts[|parts| - 1], ','));
      if ini.Err? then Err(ini.error)
      else if cyc.Err? then Err(cyc.error)
      else Ok(RateLists(ini.value.0, ini.value.1, cyc.value.0, cyc.value.1))
  }

  /** `str_to_doubleint`: the rate twice, whatever threshold follows it. */
  function StrToDoubleInt(s: string): Result<(int, int)> {
    if s == "" then Ok((0, 0))
    else
      var r := Split(s, ':');
      if |r| > 2 then Err(BadFormat)
      else
        var v := ParseInt(r[0]);
        if v.Err? then Err(v.error) else Ok((v.value, v.value))
  }

  /** `10 ** k`. */
  function Pow10(k: nat): (p: nat)
    ensures p >= 1
  {
    if k == 0 then 1 else 10 * Pow10(k - 1)
  }

  /**
   * `float(s)` on unsigned decimal text: digits, then optionally a '.' and
   * more digits, with at least one digit in all ("7", "7.", ".5", "2.50").
   * The value is kept exact, as a fraction over a power of ten.
   */
  function ParseUnsignedDecimal(s: string): (r: Result<Fractions.Q>)
    ensures r.Ok? ==> r.value.num >= 0 && |s| > 0
  {
    var parts := Split(s, '.');
    if |parts| > 2 then Err(ValueError)
    else
      var whole := parts[0];
      var frac := if |parts| == 2 then parts[1] else "";
      if AllDigits(whole) && AllDigits(frac) && |whole| + |frac| > 0 then
        Ok(Fractions.Frac(DigitsValue(whole) * Pow10(|frac|) + DigitsValue(frac), Pow10(|frac|)))
      else Err(ValueError)
  }

  /** `float(s)`: an optional sign, then unsigned decimal text; anything else raises `ValueError`. */
  function ParseDecimal(s: string): (r: Result<Fractions.Q>)
    ensures r.Ok? ==> |s| > 0
  {
    if |s| > 0 && (s[0] == '-' || s[0] == '+') then
      var m := ParseUnsignedDecimal(s[1..]);
      if m.Err? then m
      else if s[0] == '-' then Ok(Fractions.Frac(-m.value.num, m.value.den))
      else m
    else ParseUnsignedDecimal(s)
  }

  /** `str_to_int`: `""` reads as 0, anything else as `float(s)`. */
  function StrToNum(s: string): Result<Fractions.Q> {
    if s == "" then Ok(Fractions.Int(0)) else ParseDecimal(s)
  }

  function ParseNums(vs: seq<string>): (r: Result<seq<Fractions.Q>>)
    ensures r.Ok? ==> |r.value| == |vs|
    decreases |vs|
  {
    if |vs| == 0 then Ok([])
    else
      var front := ParseNums(vs[..|vs| - 1]);
      if front.Err? then front
      else
        var e := StrToNum(vs[|vs| - 1]);
        if e.Err? then Err(e.error) else Ok(front.value + [e.value])
  }

  /** `split_init_cyclo_durations`: `(initial list, cyclic list)` of numbers; an empty initial part gives `[]`. */
  function SplitDurations(s: string): Result<(seq<Fractions.Q>, seq<Fractions.Q>)> {
    var parts := Split(s, ';');
    if |parts| > 2 then Err(BadFormat)
    else
      var init := if |parts| == 2 then parts[0] else "";
      var ini := ParseNums(Split(init, ','));
      var cyc := ParseNums(Split(parts[|parts| - 1], ','));
      if ini.Err? then Err(ini.error)
      else if cyc.Err? then Err(cyc.error)
      else Ok((if init == "" then [] else ini.value, cyc.value))
  }

  /** `[int(i) for i in l]`, which the file reader applies to each list it gets back. */
  function Truncated(qs: seq<Fractions.Q>): (r: seq<int>)
    ensures |r| == |qs|
  {
    seq(|qs|, i requires 0 <= i < |qs| => Fractions.Trunc(qs[i]))
  }

  /** Integers as exact numbers. */
  function Ints(ds: seq<int>): (r: seq<Fractions.Q>)
    ensures |r| == |ds|
  {
    seq(|ds|, i requires 0 <= i < |ds| => Fractions.Int(ds[i]))
  }

  // ---------------------------------------------------------------------
  // Round trips

  lemma EntryFree(r: int, t: int, c: char)
    requires c == ',' || c == ';'
    ensures Free(RateEntry(r, t), c) && Free(IntStr(r), c)
  {
    IntStrNoSeparators(r, c);
    IntStrNoSeparators(t, c);
  }

  /** Reading a rendered entry gives its rate and threshold back. */
  lemma ParseRateEntry(r: int, t: int)
    ensures ParseEntry(RateEntry(r, t)) == Ok((r, t))
  {
    IntStrNoSeparators(r, ':');
    IntStrNoSeparators(t, ':');
    SplitFree(IntStr(r), ':');
    SplitFree(IntStr(t), ':');
    ParseIntStr(r);
    ParseIntStr(t);
    if r != t {
      SplitCons(IntStr(r), ':', IntStr(t));
      assert IntStr(r) + ":" + IntStr(t) == IntStr(r) + [':'] + IntStr(t);
    }
  }

  /** Reading a plain integer entry gives it as both rate and threshold. */
  lemma ParseIntEntry(r: int)
    ensures ParseEntry(IntStr(r)) == Ok((r, r))
  {
    IntStrNoSeparators(r, ':');
    SplitFree(IntStr(r), ':');
    ParseIntStr(r);
  }

  lemma {:induction false} ParseRateEntries(rs: seq<int>, ts: seq<int>)
    requires |rs| == |ts|
    ensures ParseEntries(RateEntries(rs, ts)) == Ok((rs, ts))
    decreases |rs|
  {
    var n := |rs|;
    if n > 0 {
      var rs', ts' := rs[..n - 1], ts[..n - 1];
      RateEntriesSnoc(rs, ts);
      ParseRateEntries(rs', ts');
      ParseRateEntry(rs[n - 1], ts[n - 1]);
      ParseEntriesSnoc(RateEntries(rs', ts'), RateEntry(rs[n - 1], ts[n - 1]), (rs', ts'), (rs[n - 1], ts[n - 1]));
      assert rs' + [rs[n - 1]] == rs;
      assert ts' + [ts[n - 1]] == ts;
    }
  }

  lemma RateEntriesSnoc(rs: seq<int>, ts: seq<int>)
    requires |rs| == |ts| > 0
    ensures RateEntries(rs, ts) == RateEntries(rs[..|rs| - 1], ts[..|rs| - 1]) + [RateEntry(rs[|rs| - 1], ts[|rs| - 1])]
  {
  }

  /** One more entry read after the others. */
  lemma ParseEntriesSnoc(vs: seq<string>, v: string, front: (seq<int>, seq<int>), x: (int, int))
    requires ParseEntries(vs) == Ok(front) && ParseEntry(v) == Ok(x)
    ensures ParseEntries(vs + [v]) == Ok((front.0 + [x.0], front.1 + [x.1]))
  {
    assert (vs + [v])[..|vs|] == vs;
  }

  lemma {:induction false} ParseIntEntries(rs: seq<int>)
    ensures ParseEntries(IntEntries(rs)) == Ok((rs, rs))
    decreases |rs|
  {
    var n := |rs|;
    if n > 0 {
      assert IntEntries(rs)[..n - 1] == IntEntries(rs[..n - 1]);
      ParseIntEntries(rs[..n - 1]);
      ParseIntEntry(rs[n - 1]);
      assert rs[..n - 1] + [rs[n - 1]] == rs;
    }
  }

  lemma EntriesFree(rs: seq<int>, ts: seq<int>, c: char)
    requires |rs| <= |ts| && (c == ',' || c == ';')
    ensures forall i :: 0 <= i < |rs| ==> Free(RateEntries(rs, ts)[i], c) && Free(IntEntries(rs)[i], c)
  {
    forall i | 0 <= i < |rs| ensures Free(RateEntries(rs, ts)[i], c) && Free(IntEntries(rs)[i], c) {
      EntryFree(rs[i], ts[i], c);
    }
  }

  /** A comma list of rendered entries parses back to its rate and threshold lists. */
  lemma ParseJoinedEntries(rs: seq<int>, ts: seq<int>)
    requires |rs| == |ts| && |rs| >= 1
    ensures Free(Join(RateEntries(rs, ts), ','), ';') && Free(Join(IntEntries(rs), ','), ';')
    ensures ParseEntries(Split(Join(RateEntries(rs, ts), ','), ',')) == Ok((rs, ts))
    ensures ParseEntries(Split(Join(IntEntries(rs), ','), ',')) == Ok((rs, rs))
  {
    EntriesFree(rs, ts, ',');
    EntriesFree(rs, ts, ';');
    JoinFree(RateEntries(rs, ts), ',', ';');
    JoinFree(IntEntries(rs), ',', ';');
    SplitJoin(RateEntries(rs, ts), ',');
    SplitJoin(IntEntries(rs), ',');
    ParseRateEntries(rs, ts);
    ParseIntEntries(rs);
  }

  /** `"ini;normal"` with both parts free of ';' splits into the two parts. */
  lemma SplitTwo(ini: string, normal: string)
    requires Free(ini, ';') && Free(normal, ';')
    ensures Split(ini + ";" + normal, ';') == [ini, normal]
  {
    SplitCons(ini, ';', normal);
    SplitFree(normal, ';');
    assert ini + ";" + normal == ini + [';'] + normal;
  }

  /**
   * Parsing what `get_cons_str` renders gives back the arc's consumption and
   * threshold lists, initial and cyclic (the SDF and CSDF renderings carry no
   * threshold, so the thresholds read back equal the rates).
   */
  lemma ConsTextRoundTrip(k: Kind, a: Arc, ipcSrc: nat, ipc: nat)
    requires TextShaped(k, a, ipcSrc, ipc)
    ensures SplitRates(ConsText(k, a, ipc)) ==
      if IsPcg(k) then Ok(RateLists(a.iniCons, a.iniThr, a.cons, a.thr))
      else Ok(RateLists([], [], a.cons, a.cons))
  {
    match k
    case SDF =>
      assert IntStr(a.cons[0]) == Join(IntEntries(a.cons), ',');
      ParseJoinedEntries(a.cons, a.cons);
      SplitFree(IntStr(a.cons[0]), ';');
    case CSDF =>
      ParseJoinedEntries(a.cons, a.cons);
      SplitFree(Join(IntEntries(a.cons), ','), ';');
    case PCG =>
      ParseJoinedEntries(a.cons, a.thr);
      var normal := Join(RateEntries(a.cons, a.thr), ',');
      if ipc > 0 {
        ParseJoinedEntries(a.iniCons, a.iniThr);
        SplitTwo(Join(RateEntries(a.iniCons, a.iniThr), ','), normal);
      } else {
        SplitFree(normal, ';');
      }
  }

  lemma ConsStrRoundTrip(g: Graph, i: nat)
    requires Shaped(g) && i < |g.arcs|
    ensures var a := g.arcs[i];
      SplitRates(ConsStr(g, i)) ==
        if IsPcg(g.kind) then Ok(RateLists(a.iniCons, a.iniThr, a.cons, a.thr))
        else Ok(RateLists([], [], a.cons, a.cons))
  {
    ShapedText(g, i);
    ConsTextRoundTrip(g.kind, g.arcs[i], IniPhaseCount(g, g.arcs[i].src), IniPhaseCount(g, g.arcs[i].tgt));
  }

  /** Parsing what `get_prod_str` renders gives back the initial and cyclic production lists. */
  lemma ProdTextRoundTrip(k: Kind, a: Arc, ipc: nat, ipcTgt: nat)
    requires TextShaped(k, a, ipc, ipcTgt)
    ensures SplitRates(ProdText(k, a, ipc)) ==
      if IsPcg(k) then Ok(RateLists(a.iniProd, a.iniProd, a.prod, a.prod))
      else Ok(RateLists([], [], a.prod, a.prod))
  {
    match k
    case SDF =>
      assert IntStr(a.prod[0]) == Join(IntEntries(a.prod), ',');
      ParseJoinedEntries(a.prod, a.prod);
      SplitFree(IntStr(a.prod[0]), ';');
    case CSDF =>
      ParseJoinedEntries(a.prod, a.prod);
      SplitFree(Join(IntEntries(a.prod), ','), ';');
    case PCG =>
      ParseJoinedEntries(a.prod, a.prod);
      var normal := Join(IntEntries(a.prod), ',');
      if ipc > 0 {
        ParseJoinedEntries(a.iniProd, a.iniProd);
        SplitTwo(Join(IntEntries(a.iniProd), ','), normal);
      } else {
        assert a.iniProd == [];
        SplitFree(normal, ';');
      }
  }

  lemma ProdStrRoundTrip(g: Graph, i: nat)
    requires Shaped(g) && i < |g.arcs|
    ensures var a := g.arcs[i];
      SplitRates(ProdStr(g, i)) ==
        if IsPcg(g.kind) then Ok(RateLists(a.iniProd, a.iniProd, a.prod, a.prod))
        else Ok(RateLists([], [], a.prod, a.prod))
  {
    ShapedText(g, i);
    ProdTextRoundTrip(g.kind, g.arcs[i], IniPhaseCount(g, g.arcs[i].src), IniPhaseCount(g, g.arcs[i].tgt));
  }

  /** `str_to_doubleint` drops the threshold of an `"r:t"` item. */
  lemma StrToDoubleIntDropsThreshold(r: int, t: int)
    ensures StrToDoubleInt(RateEntry(r, t)) == Ok((r, r))
  {
    ParseRateEntry(r, t);
    IntStrNoSeparators(r, ':');
    SplitFree(IntStr(r), ':');
    ParseIntStr(r);
    if r != t {
      IntStrNoSeparators(t, ':');
      SplitFree(IntStr(t), ':');
      SplitCons(IntStr(r), ':', IntStr(t));
      assert IntStr(r) + ":" + IntStr(t) == IntStr(r) + [':'] + IntStr(t);
    }
  }

  /** Text without ';' has no initial rates or thresholds. */
  lemma NoSemicolonNoInitial(s: string)
    requires Free(s, ';')
    ensures SplitRates(s).Ok? ==> SplitRates(s).value.iniRates == [] && SplitRates(s).value.iniThresholds == []
    ensures SplitDurations(s).Ok? ==> SplitDurations(s).value.0 == []
  {
    SplitFree(s, ';');
  }

  /** More than one ';' is refused by both parsers. */
  lemma TwoSemicolonsRefused(a: string, b: string, c: string)
    requires Free(a, ';') && Free(b, ';') && Free(c, ';')
    ensures SplitRates(a + ";" + b + ";" + c) == Err(BadFormat)
    ensures SplitDurations(a + ";" + b + ";" + c) == Err(BadFormat)
  {
    SplitCons(a, ';', b + ";" + c);
    SplitCons(b, ';', c);
    SplitFree(c, ';');
    assert a + ";" + b + ";" + c == a + [';'] + (b + [';'] + c);
  }

  /** Digits contain no '.', so decimal text without one is read as an integer. */
  lemma DigitsNoPoint(s: string)
    requires AllDigits(s)
    ensures Split(s, '.') == [s]
  {
    SplitFree(s, '.');
  }

  /** `float(s)` agrees with `int(s)` wherever `int(s)` succeeds. */
  lemma DecimalExtendsInt(s: string)
    requires ParseInt(s).Ok?
    ensures ParseDecimal(s) == Ok(Fractions.Int(ParseInt(s).value))
  {
    if s[0] == '-' || s[0] == '+' {
      DigitsNoPoint(s[1..]);
    } else {
      DigitsNoPoint(s);
    }
  }

  /** `float(s)` on the unsigned text `n.0` is `10n/10`. */
  lemma ParseUnsignedPointZero(n: nat)
    ensures ParseUnsignedDecimal(NatStr(n) + ".0") == Ok(Fractions.Frac(10 * n, 10))
  {
    var w := NatStr(n);
    assert AllDigits(w);
    SplitFree(w, '.');
    SplitCons(w, '.', "0");
    SplitFree("0", '.');
    assert w + ".0" == w + ['.'] + "0";
    var parts := Split(w + ".0", '.');
    assert parts == [w, "0"];
    NatStrValue(n);
    assert AllDigits("0");
    assert DigitsValue("0") == 0 by { assert "0"[..0] == ""; }
    assert Pow10(1) == 10;
  }

  /** Reading back `str(float(d))` and truncating gives `d` again. */
  lemma ParseFloatStr(d: int)
    ensures ParseDecimal(FloatStr(d)).Ok? && Fractions.Trunc(ParseDecimal(FloatStr(d)).value) == d
  {
    if d < 0 {
      var m := -d;
      ParseUnsignedPointZero(m);
      assert FloatStr(d) == "-" + (NatStr(m) + ".0");
      assert FloatStr(d)[1..] == NatStr(m) + ".0";
      assert (-(10 * m)) / 10 == -m;
    } else {
      ParseUnsignedPointZero(d);
      assert FloatStr(d) == NatStr(d) + ".0";
      assert IsDigit(NatStr(d)[0]);
      assert (10 * d) / 10 == d;
    }
  }

  lemma {:induction false} ParseNumsInts(ds: seq<int>)
    ensures ParseNums(IntEntries(ds)) == Ok(Ints(ds))
    decreases |ds|
  {
    var n := |ds|;
    if n > 0 {
      assert IntEntries(ds)[..n - 1] == IntEntries(ds[..n - 1]);
      ParseNumsInts(ds[..n - 1]);
      ParseIntStr(ds[n - 1]);
      DecimalExtendsInt(IntStr(ds[n - 1]));
      assert Ints(ds[..n - 1]) + [Fractions.Int(ds[n - 1])] == Ints(ds);
    }
  }

  lemma {:induction false} ParseNumsFloats(ds: seq<int>)
    ensures ParseNums(FloatEntries(ds)).Ok? && Truncated(ParseNums(FloatEntries(ds)).value) == ds
    decreases |ds|
  {
    var n := |ds|;
    if n > 0 {
      var init := ds[..n - 1];
      var x := ds[n - 1];
      assert FloatEntries(ds) == FloatEntries(init) + [FloatStr(x)];
      ParseNumsFloats(init);
      ParseFloatStr(x);
      ParseNumsSnoc(FloatEntries(init), FloatStr(x));
      TruncatedSnoc(ParseNums(FloatEntries(init)).value, ParseDecimal(FloatStr(x)).value);
      assert init + [x] == ds;
    }
  }

  lemma ParseNumsSnoc(vs: seq<string>, v: string)
    requires ParseNums(vs).Ok? && v != "" && ParseDecimal(v).Ok?
    ensures ParseNums(vs + [v]) == Ok(ParseNums(vs).value + [ParseDecimal(v).value])
  {
    assert (vs + [v])[..|vs|] == vs;
  }

  lemma TruncatedSnoc(qs: seq<Fractions.Q>, q: Fractions.Q)
    ensures Truncated(qs + [q]) == Truncated(qs) + [Fractions.Trunc(q)]
  {
  }

  /** A rendered float contains none of the separators ',' and ';'. */
  lemma FloatStrFree(d: int, c: char)
    requires c == ',' || c == ';'
    ensures Free(FloatStr(d), c)
  {
    IntStrNoSeparators(d, c);
  }

  /** A non-empty comma list of rendered floats: free of ';', not empty, and read back by truncation. */
  lemma FloatListRoundTrip(ds: seq<int>)
    requires |ds| >= 1
    ensures Free(Join(FloatEntries(ds), ','), ';') && Join(FloatEntries(ds), ',') != ""
    ensures ParseNums(Split(Join(FloatEntries(ds), ','), ',')).Ok?
    ensures Truncated(ParseNums(Split(Join(FloatEntries(ds), ','), ',')).value) == ds
  {
    var e := FloatEntries(ds);
    forall i | 0 <= i < |e| ensures Free(e[i], ',') && Free(e[i], ';') {
      FloatStrFree(ds[i], ',');
      FloatStrFree(ds[i], ';');
    }
    JoinFree(e, ',', ';');
    SplitJoin(e, ',');
    ParseNumsFloats(ds);
    JoinNonEmpty(e, ',');
  }

  /** Joining pieces whose first one is not empty gives non-empty text. */
  lemma JoinNonEmpty(parts: seq<string>, c: char)
    requires |parts| >= 1 && parts[0] != ""
    ensures Join(parts, c) != ""
  {
    if |parts| > 1 {
      assert Join(parts, c) == parts[0] + [c] + Join(parts[1..], c);
    }
  }

  /** Parsing a comma list of rendered integers, with no ';' part, gives an empty initial list and the integers. */
  lemma DurationsRoundTrip(d: seq<int>)
    requires |d| >= 1
    ensures SplitDurations(Join(IntEntries(d), ',')) == Ok(([], Ints(d)))
  {
    var txt := Join(IntEntries(d), ',');
    EntriesFree(d, d, ',');
    EntriesFree(d, d, ';');
    JoinFree(IntEntries(d), ',', ';');
    SplitFree(txt, ';');
    SplitJoin(IntEntries(d), ',');
    ParseNumsInts(d);
    assert Split(txt, ';') == [txt];
    assert Split("", ',') == [""];
    var empty: seq<string> := [""];
    assert empty[..0] == [] && empty[0] == "";
    assert ParseNums(empty[..0]) == Ok([]);
    assert StrToNum("") == Ok(Fractions.Int(0));
    assert ParseNums(empty).Ok?;
  }

  /** Parsing what the SDF or CSDF `get_duration_str` renders gives an empty initial list and the durations, exactly. */
  lemma IntDurationRoundTrip(g: Graph, t: nat)
    requires Shaped(g) && t < |g.tasks| && g.kind != PCG
    ensures SplitDurations(DurationStr(g, t)) == Ok(([], Ints(g.tasks[t].durations)))
  {
    var d := g.tasks[t].durations;
    assert PhaseCount(g, t) >= 1;
    if g.kind == SDF {
      assert |d| == 1;
      assert IntEntries(d) == [IntStr(d[0])];
    }
    DurationsRoundTrip(d);
  }

  /**
   * Parsing what the PCG `get_duration_str` renders, then truncating each
   * number as the file reader does, gives back the initial and the cyclic
   * durations.
   */
  lemma PcgDurationRoundTrip(g: Graph, t: nat)
    requires Shaped(g) && t < |g.tasks| && g.kind == PCG
    ensures SplitDurations(DurationStr(g, t)).Ok?
    ensures Truncated(SplitDurations(DurationStr(g, t)).value.0) == g.tasks[t].iniDurations
    ensures Truncated(SplitDurations(DurationStr(g, t)).value.1) == g.tasks[t].durations
  {
    var d := g.tasks[t].durations;
    var ini := g.tasks[t].iniDurations;
    assert PhaseCount(g, t) >= 1;
    FloatListRoundTrip(d);
    var normal := Join(FloatEntries(d), ',');
    if |ini| > 0 {
      FloatListRoundTrip(ini);
      var pre := Join(FloatEntries(ini), ',');
      assert DurationStr(g, t) == pre + [';'] + normal;
      SplitCons(pre, ';', normal);
      SplitFree(normal, ';');
    } else {
      SplitFree(normal, ';');
      var empty: seq<string> := [""];
      assert Split("", ',') == empty;
      assert empty[..0] == [];
      assert ParseNums(empty).Ok? by { assert StrToNum("") == Ok(Fractions.Int(0)); }
    }
  }

  // ---------------------------------------------------------------------
  // The getters' and the parser's loops

  /** The loop shared by the getters: each item followed by a comma, after `prefix`. */
  method AppendItems(prefix: string, entries: seq<string>) returns (s: string)
    ensures s == prefix + Terminated(entries, ',')
  {
    s := prefix;
    var k := 0;
    while k < |entries|
      invariant 0 <= k <= |entries|
      invariant s == prefix + Terminated(entries[..k], ',')
    {
      assert entries[..k + 1][..k] == entries[..k];
      s := s + entries[k] + ",";
      k := k + 1;
    }
    assert entries[..k] == entries;
  }

  /** Item lists of one or more items: the loop's text minus its last comma is the join. */
  lemma AppendedJoin(prefix: string, entries: seq<string>)
    requires |entries| >= 1
    ensures DropLast(prefix + Terminated(entries, ',')) == prefix + Join(entries, ',')
  {
    TerminatedJoin(entries, ',');
    assert prefix + Terminated(entries, ',') == (prefix + Join(entries, ',')) + ",";
  }

  /** `get_cons_str`, building the text item by item as the source does. */
  method GetConsStr(g: Graph, i: nat) returns (s: string)
    requires Shaped(g) && i < |g.arcs|
    ensures s == ConsStr(g, i)
  {
    ShapedText(g, i);
    s := RenderCons(g.kind, g.arcs[i], IniPhaseCount(g, g.arcs[i].src), IniPhaseCount(g, g.arcs[i].tgt));
  }

  /** One list of items after `prefix`: the comma loop, then the last comma dropped. */
  method JoinItems(prefix: string, entries: seq<string>) returns (s: string)
    requires |entries| >= 1
    ensures s == prefix + Join(entries, ',')
  {
    s := AppendItems(prefix, entries);
    AppendedJoin(prefix, entries);
    s := DropLast(s);
  }

  method RenderCons(k: Kind, a: Arc, ipcSrc: nat, ipc: nat) returns (s: string)
    requires TextShaped(k, a, ipcSrc, ipc)
    ensures s == ConsText(k, a, ipc)
  {
    match k
    case SDF =>
      s := IntStr(a.cons[0]);
    case CSDF =>
      s := JoinItems("", IntEntries(a.cons));
    case PCG =>
      s := "";
      if ipc > 0 {
        s := JoinItems("", RateEntries(a.iniCons, a.iniThr));
        s := s + ";";
        assert s == Join(RateEntries(a.iniCons, a.iniThr), ',') + ";";
      }
      ghost var head := s;
      s := JoinItems(s, RateEntries(a.cons, a.thr));
      assert s == head + Join(RateEntries(a.cons, a.thr), ',');
      assert ipc == 0 ==> s == Join(RateEntries(a.cons, a.thr), ',');
  }

  /** `get_prod_str`, building the text item by item as the source does. */
  method GetProdStr(g: Graph, i: nat) returns (s: string)
    requires Shaped(g) && i < |g.arcs|
    ensures s == ProdStr(g, i)
  {
    ShapedText(g, i);
    s := RenderProd(g.kind, g.arcs[i], IniPhaseCount(g, g.arcs[i].src), IniPhaseCount(g, g.arcs[i].tgt));
  }

  method RenderProd(k: Kind, a: Arc, ipc: nat, ipcTgt: nat) returns (s: string)
    requires TextShaped(k, a, ipc, ipcTgt)
    ensures s == ProdText(k, a, ipc)
  {
    match k
    case SDF =>
      s := IntStr(a.prod[0]);
    case CSDF =>
      s := JoinItems("", IntEntries(a.prod));
    case PCG =>
      s := "";
      if ipc > 0 {
        s := JoinItems("", IntEntries(a.iniProd));
        s := s + ";";
        assert s == Join(IntEntries(a.iniProd), ',') + ";";
      }
      s := JoinItems(s, IntEntries(a.prod));
  }

  /** The item loop of `split_init_cyclo_rates`: appends each item's rate and threshold. */
  method ParseItems(vs: seq<string>) returns (r: Result<(seq<int>, seq<int>)>)
    ensures r == ParseEntries(vs)
  {
    var rates: seq<int> := [];
    var thresholds: seq<int> := [];
    var k := 0;
    while k < |vs|
      invariant 0 <= k <= |vs|
      invariant ParseEntries(vs[..k]) == Ok((rates, thresholds))
    {
      assert vs[..k + 1][..k] == vs[..k];
      var e := ParseEntry(vs[k]);
      if e.Err? {
        ParseEntriesPrefixError(vs, k + 1);
        return Err(e.error);
      }
      rates := rates + [e.value.0];
      thresholds := thresholds + [e.value.1];
      k := k + 1;
    }
    assert vs[..k] == vs;
    r := Ok((rates, thresholds));
  }

  /** Once a prefix fails to parse, so does the whole list, with the same error. */
  lemma {:induction false} ParseEntriesPrefixError(vs: seq<string>, k: nat)
    requires k <= |vs| && ParseEntries(vs[..k]).Err?
    ensures ParseEntries(vs) == ParseEntries(vs[..k])
    decreases |vs| - k
  {
    if k < |vs| {
      assert vs[..k + 1][..k] == vs[..k];
      ParseEntriesPrefixError(vs, k + 1);
    } else {
      assert vs[..k] == vs;
    }
  }

  /** `split_init_cyclo_rates`. */
  method SplitInitCycloRates(s: string) returns (r: Result<RateLists>)
    ensures r == SplitRates(s)
  {
    var parts := Split(s, ';');
    if |parts| > 2 {
      return Err(BadFormat);
    }
    var ini := ParseItems(InitPart(parts));
    if ini.Err? {
      return Err(ini.error);
    }
    var cyc := ParseItems(Split(parts[|parts| - 1], ','));
    if cyc.Err? {
      return Err(cyc.error);
    }
    r := Ok(RateLists(ini.value.0, ini.value.1, cyc.value.0, cyc.value.1));
  }
}
