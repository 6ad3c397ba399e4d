/** The macro-indicator aggregation of lib/macroSources.ts: four calls to
    statistics sources that run in parallel, four rate-limited Riksbank calls
    that run one after another with a fixed pause, a plausibility check per
    Riksbank series, a fallback table resolved with `??`, the SEK/USD inversion
    and the lists that record which indicators came from a live source.

    Upstream replies are parameters (oracles); waiting is time on a logical
    clock in milliseconds. */
module MacroSources {
  import opened Common

  // ---------------------------------------------------------------------
  // Upstream replies

  /** `response.data.data[0].values[0]` of an SCB reply: its text and what
      parseFloat makes of it. */
  datatype RawValue = RawValue(text: string, parsed: JsNumber)

  /** Outcome of one SCB request: a thrown error (transport, timeout, status),
      or a JSON body whose first observation may be missing. */
  datatype ScbReply = ScbFailed | ScbOk(firstValue: Option<RawValue>)

  /** Outcome of one Riksbank request: a thrown error, or a response with its
      status and, when `response.data` is present, parseFloat of its `value`. */
  datatype RiksbankReply = RiksbankFailed | RiksbankResponse(status: int, data: Option<JsNumber>)

  /** A Riksbank series id: the four the core requests, or any other id
      (`Other` is meant for codes different from the four). */
  datatype SeriesId = SECBREPOEFF | SEKEURPMI | SEKUSDPMI | EURUSDPMI | Other(code: string)

  /** The id as it appears in the request path. */
  function SeriesCode(id: SeriesId): string {
    match id
    case SECBREPOEFF => "SECBREPOEFF"
    case SEKEURPMI => "SEKEURPMI"
    case SEKUSDPMI => "SEKUSDPMI"
    case EURUSDPMI => "EURUSDPMI"
    case Other(code) => code
  }

  const REPO: SeriesId := SECBREPOEFF
  const SEK_EUR: SeriesId := SEKEURPMI
  const SEK_USD: SeriesId := SEKUSDPMI
  const EUR_USD: SeriesId := EURUSDPMI

  /** The order in which getMacro calls the Riksbank series. */
  const RIKSBANK_ORDER: seq<SeriesId> := [REPO, SEK_EUR, SEK_USD, EUR_USD]

  /** Milliseconds getMacro waits after each Riksbank call but the last. */
  const DELAY_MS: nat := 15000

  // ---------------------------------------------------------------------
  // Validated fetchers

  /** fetchScbGdp, fetchScbInflation and fetchScbUnemployment share this
      shape: null on a thrown error or a missing or empty first value, and
      otherwise parseFloat of that value, which is NOT checked for NaN. */
  function FetchScb(reply: ScbReply): (r: Option<JsNumber>)
    ensures r.None? <==> reply.ScbFailed? || reply.firstValue.None? || reply.firstValue.value.text == ""
    ensures r.Some? ==> r.value == reply.firstValue.value.parsed
  {
    match reply
    case ScbFailed => None
    case ScbOk(first) =>
      if first.Some? && first.value.text != "" then Some(first.value.parsed) else None
  }

  /** fetchEcbRate makes no request: it returns the constant 2.00. */
  function FetchEcbRate(): (r: Option<JsNumber>)
    ensures r.Some? && r.value.Num? && r.value.v == 2.0
  {
    Some(Num(2.0))
  }

  /** The plausibility interval of each Riksbank series; other series ids are
      accepted unchecked. */
  function AcceptedRange(seriesId: SeriesId): Option<(real, real)> {
    if seriesId == REPO then Some((0.0, 10.0))
    else if seriesId == SEK_EUR then Some((8.0, 15.0))
    else if seriesId == SEK_USD then Some((8.0, 12.0))
    else if seriesId == EUR_USD then Some((0.7, 1.2))
    else None
  }

  predicate InAcceptedRange(seriesId: SeriesId, v: real) {
    match AcceptedRange(seriesId)
    case None => true
    case Some((lo, hi)) => lo <= v <= hi
  }

  /** The temporary correction of a delayed repo-rate publication. */
  function Corrected(seriesId: SeriesId, v: real): real {
    if seriesId == REPO && v == 2.25 then 2.0 else v
  }

  /** The checks of fetchRiksbankData once a number has been parsed, in the
      order the source makes them. */
  function CheckRiksbankValue(seriesId: SeriesId, value: real): Option<real> {
    if seriesId == REPO && (value < 0.0 || value > 10.0) then None
    else if seriesId == REPO && value == 2.25 then Some(2.0)
    else if seriesId == SEK_EUR && (value < 8.0 || value > 15.0) then None
    else if seriesId == SEK_USD && (value < 8.0 || value > 12.0) then None
    else if seriesId == EUR_USD && (value < 0.7 || value > 1.2) then None
    else Some(value)
  }

  /** fetchRiksbankData never throws: it yields a value exactly when the reply
      is a 200 with data whose value parses to a number inside the series'
      interval, and that value is the parsed one up to the 2.25 correction. */
  function FetchRiksbankData(seriesId: SeriesId, reply: RiksbankReply): (r: Option<real>)
    ensures r.Some? <==>
      reply.RiksbankResponse? && reply.status == 200 && reply.data.Some? &&
      reply.data.value.Num? && InAcceptedRange(seriesId, reply.data.value.v)
    ensures r.Some? ==> r.value == Corrected(seriesId, reply.data.value.v)
  {
    match reply
    case RiksbankFailed => None
    case RiksbankResponse(status, data) =>
      if status == 200 && data.Some? then
        match data.value
        case Num(value) => CheckRiksbankValue(seriesId, value)
        case _ => None
      else None
  }

  /** Every accepted value lies inside its series' interval, the corrected
      repo rate included. */
  lemma AcceptedValueInRange(seriesId: SeriesId, reply: RiksbankReply)
    requires FetchRiksbankData(seriesId, reply).Some?
    ensures InAcceptedRange(seriesId, FetchRiksbankData(seriesId, reply).value)
  {
  }

  // ---------------------------------------------------------------------
  // Indicators, fallbacks and the snapshot

  datatype Indicator = GdpQoQ | InflationYoY | Unemployment | EcbRate | RepoRate | SekEur | UsdSek | UsdEur

  /** The eight indicators in the order the snapshot lists them. */
  const INDICATORS: seq<Indicator> := [GdpQoQ, InflationYoY, Unemployment, EcbRate, RepoRate, SekEur, UsdSek, UsdEur]

  lemma AllIndicatorsListed(i: Indicator)
    ensures i in INDICATORS
  {
  }

  /** CURRENT_DATA, the fallback table. */
  function Fallback(i: Indicator): real {
    match i
    case GdpQoQ => -0.20
    case InflationYoY => 2.30
    case Unemployment => 8.70
    case EcbRate => 2.00
    case RepoRate => 2.00
    case SekEur => 10.946
    case UsdSek => 9.60
    case UsdEur => 0.88
  }

  datatype MacroData = MacroData(
    updated: string,
    gdpQoQ: JsNumber, inflationYoY: JsNumber, unemployment: JsNumber, ecbRate: JsNumber,
    repoRate: JsNumber, sekEur: JsNumber, usdSek: JsNumber, usdEur: JsNumber)

  function Field(m: MacroData, i: Indicator): JsNumber {
    match i
    case GdpQoQ => m.gdpQoQ
    case InflationYoY => m.inflationYoY
    case Unemployment => m.unemployment
    case EcbRate => m.ecbRate
    case RepoRate => m.repoRate
    case SekEur => m.sekEur
    case UsdSek => m.usdSek
    case UsdEur => m.usdEur
  }

  /** JavaScript's `x ?? d`: only null is replaced (a NaN is kept). */
  function Nullish(x: Option<JsNumber>, d: real): JsNumber {
    if x.Some? then x.value else Num(d)
  }

  /** The replies of one aggregation pass (fetchEcbRate makes no request). */
  datatype Upstream = Upstream(
    gdp: ScbReply, inflation: ScbReply, unemployment: ScbReply,
    repo: RiksbankReply, sekEur: RiksbankReply, sekUsd: RiksbankReply, eurUsd: RiksbankReply)

  /** What the eight fetchers of a pass returned, null as None. */
  datatype LiveData = LiveData(
    gdpQoQ: Option<JsNumber>, inflationYoY: Option<JsNumber>, unemployment: Option<JsNumber>,
    ecbRate: Option<JsNumber>, repoRate: Option<JsNumber>, sekEur: Option<JsNumber>,
    usdSek: Option<JsNumber>, usdEur: Option<JsNumber>)

  function LiveField(l: LiveData, i: Indicator): Option<JsNumber> {
    match i
    case GdpQoQ => l.gdpQoQ
    case InflationYoY => l.inflationYoY
    case Unemployment => l.unemployment
    case EcbRate => l.ecbRate
    case RepoRate => l.repoRate
    case SekEur => l.sekEur
    case UsdSek => l.usdSek
    case UsdEur => l.usdEur
  }

  function OptNum(x: Option<real>): Option<JsNumber> {
    if x.Some? then Some(Num(x.value)) else None
  }

  /** JavaScript's `1 / x`; a zero divisor gives Infinity. */
  function Reciprocal(x: real): JsNumber {
    if x == 0.0 then PosInf else Num(1.0 / x)
  }

  /** USD/SEK from SEK/USD: `1 / sekUsdData` when that is not null. */
  function Invert(sekUsd: Option<real>): (r: Option<JsNumber>)
    ensures r.Some? <==> sekUsd.Some?
  {
    if sekUsd.Some? then Some(Reciprocal(sekUsd.value)) else None
  }

  /** The values a pass obtains from the upstream replies. */
  function Live(up: Upstream): LiveData {
    LiveData(FetchScb(up.gdp), FetchScb(up.inflation), FetchScb(up.unemployment), FetchEcbRate(),
      OptNum(FetchRiksbankData(REPO, up.repo)), OptNum(FetchRiksbankData(SEK_EUR, up.sekEur)),
      Invert(FetchRiksbankData(SEK_USD, up.sekUsd)), OptNum(FetchRiksbankData(EUR_USD, up.eurUsd)))
  }

  /** The live value a pass obtains for indicator `i`. */
  function LiveValue(up: Upstream, i: Indicator): Option<JsNumber> {
    LiveField(Live(up), i)
  }

  /** The `result` object of getMacro: each field is its live value unless
      that is null (`??`), in which case it is the CURRENT_DATA constant. */
  function Resolve(updated: string, l: LiveData): (m: MacroData)
    ensures m.updated == updated
    ensures forall i :: Field(m, i) == Nullish(LiveField(l, i), Fallback(i))
  {
    MacroData(updated,
      Nullish(l.gdpQoQ, -0.20), Nullish(l.inflationYoY, 2.30), Nullish(l.unemployment, 8.70),
      Nullish(l.ecbRate, 2.00), Nullish(l.repoRate, 2.00), Nullish(l.sekEur, 10.946),
      Nullish(l.usdSek, 9.60), Nullish(l.usdEur, 0.88))
  }

  /** The record returned when the try block of getMacro throws. */
  function AllFallback(updated: string): (m: MacroData)
    ensures forall i :: Field(m, i) == Num(Fallback(i))
  {
    MacroData(updated, Num(-0.20), Num(2.30), Num(8.70), Num(2.00), Num(2.00), Num(10.946), Num(9.60), Num(0.88))
  }

  /** No field of a snapshot is ever without a number, whether the pass ran
      through or fell back entirely: each is live or its constant. */
  lemma SnapshotTotal(up: Upstream, m: MacroData, i: Indicator)
    requires forall j :: Field(m, j) == Nullish(LiveValue(up, j), Fallback(j))
    ensures LiveValue(up, i).Some? ==> Field(m, i) == LiveValue(up, i).value
    ensures LiveValue(up, i).None? ==> Field(m, i) == Num(Fallback(i))
  {
  }

  /** USD/SEK: when SEK/USD was accepted the field is its inverse, between
      1/12 and 1/8 (US dollars per krona); otherwise it is the fallback 9.60,
      which counts kronor per dollar. The two cases thus differ in unit. */
  lemma {:induction false} UsdSekUnits(up: Upstream)
    ensures var live := LiveValue(up, UsdSek);
      live.Some? ==> live.value.Num? && 1.0 / 12.0 <= live.value.v <= 1.0 / 8.0
    ensures LiveValue(up, UsdSek).None? ==> Nullish(LiveValue(up, UsdSek), Fallback(UsdSek)) == Num(9.60)
  {
    var sekUsd := FetchRiksbankData(SEK_USD, up.sekUsd);
    if sekUsd.Some? {
      var x := sekUsd.value;
      assert 8.0 <= x <= 12.0;
      InverseBounds(x, 8.0, 12.0);
    }
  }

  lemma InverseBounds(x: real, lo: real, hi: real)
    requires 0.0 < lo <= x <= hi
    ensures 1.0 / hi <= 1.0 / x <= 1.0 / lo
  {
    assert x * (1.0 / x) == 1.0;
    assert hi * (1.0 / hi) == 1.0;
    assert lo * (1.0 / lo) == 1.0;
  }

  // ---------------------------------------------------------------------
  // Provenance

  function ApiLabel(i: Indicator): string {
    match i
    case GdpQoQ => "BNP(SCB)"
    case InflationYoY => "Inflation(SCB)"
    case Unemployment => "Arbetslöshet(SCB)"
    case EcbRate => "ECB-ränta(ECB)"
    case RepoRate => "Reporänta(RB)"
    case SekEur => "SEK/EUR(RB)"
    case UsdSek => "USD/SEK(RB-calculated)"
    case UsdEur => "EUR/USD(RB)"
  }

  function FallbackLabel(i: Indicator): string {
    match i
    case GdpQoQ => "BNP"
    case InflationYoY => "Inflation"
    case Unemployment => "Arbetslöshet"
    case EcbRate => "ECB-ränta"
    case RepoRate => "Reporänta"
    case SekEur => "SEK/EUR"
    case UsdSek => "USD/SEK"
    case UsdEur => "EUR/USD"
  }

  /** Labels name their indicator: no two indicators share a label, and no
      live label is a fallback label. */
  lemma LabelsDistinct(i: Indicator, j: Indicator)
    ensures ApiLabel(i) == ApiLabel(j) ==> i == j
    ensures FallbackLabel(i) == FallbackLabel(j) ==> i == j
    ensures ApiLabel(i) != FallbackLabel(j)
  {
  }

  /** The indicators with a non-null value in `l`. */
  function PresentSet(l: LiveData): (present: set<Indicator>)
    ensures forall i :: i in present <==> LiveField(l, i).Some?
  {
    Present(l.gdpQoQ, GdpQoQ) + Present(l.inflationYoY, InflationYoY) +
    Present(l.unemployment, Unemployment) + Present(l.ecbRate, EcbRate) +
    Present(l.repoRate, RepoRate) + Present(l.sekEur, SekEur) +
    Present(l.usdSek, UsdSek) + Present(l.usdEur, UsdEur)
  }

  /** The indicators for which a pass obtained a live value. */
  function LiveSet(up: Upstream): (present: set<Indicator>)
    ensures forall i :: i in present <==> LiveValue(up, i).Some?
  {
    PresentSet(Live(up))
  }

  function Present(x: Option<JsNumber>, i: Indicator): set<Indicator> {
    if x.Some? then {i} else {}
  }

  // ---------------------------------------------------------------------
  // The call schedule

  datatype Call = ScbGdp | ScbInflation | ScbUnemployment | Ecb | Riksbank(seriesId: SeriesId)

  datatype Step = Fetch(call: Call) | Delay(ms: nat)

  /** One step of a pass and the logical times at which it began and ended. */
  datatype Span = Span(step: Step, start: int, end: int)

  /** The four unthrottled calls, all dispatched at `t` by Promise.all. */
  function ParallelGroup(t: int, latency: Call -> nat): seq<Span> {
    [Span(Fetch(ScbGdp), t, t + latency(ScbGdp)),
     Span(Fetch(ScbInflation), t, t + latency(ScbInflation)),
     Span(Fetch(ScbUnemployment), t, t + latency(ScbUnemployment)),
     Span(Fetch(Ecb), t, t + latency(Ecb))]
  }

  /** The moment Promise.all resolves: when its slowest call ends. */
  function GroupEnd(t: int, latency: Call -> nat): (e: int)
    ensures forall s :: s in ParallelGroup(t, latency) ==> s.end <= e
    ensures exists s :: s in ParallelGroup(t, latency) && s.end == e
  {
    var g := ParallelGroup(t, latency);
    var e := Max(Max(t + latency(ScbGdp), t + latency(ScbInflation)),
                 Max(t + latency(ScbUnemployment), t + latency(Ecb)));
    assert g[0] in g && g[1] in g && g[2] in g && g[3] in g;
    assert e == g[0].end || e == g[1].end || e == g[2].end || e == g[3].end;
    e
  }

  function Max(a: int, b: int): int { if a < b then b else a }

  /** Rate-limited calls in order, each but the last followed by a pause of
      DELAY_MS that begins when the call completes. */
  function Chain(series: seq<SeriesId>, t: int, latency: Call -> nat): seq<Span>
    decreases |series|
  {
    if series == [] then []
    else
      var fin := t + latency(Riksbank(series[0]));
      [Span(Fetch(Riksbank(series[0])), t, fin)] +
      (if |series| == 1 then []
       else [Span(Delay(DELAY_MS), fin, fin + DELAY_MS)] + Chain(series[1..], fin + DELAY_MS, latency))
  }

  /** The whole schedule of one pass that starts at `t`. */
  function Schedule(t: int, latency: Call -> nat): seq<Span> {
    ParallelGroup(t, latency) + Chain(RIKSBANK_ORDER, GroupEnd(t, latency), latency)
  }

  /** The calls a trace makes, in order. */
  function Calls(trace: seq<Span>): seq<Call> {
    if trace == [] then []
    else (if trace[0].step.Fetch? then [trace[0].step.call] else []) + Calls(trace[1..])
  }

  function DelayCount(trace: seq<Span>): nat {
    if trace == [] then 0 else (if trace[0].step.Delay? then 1 else 0) + DelayCount(trace[1..])
  }

  function RiksbankCalls(series: seq<SeriesId>): seq<Call> {
    if series == [] then [] else [Riksbank(series[0])] + RiksbankCalls(series[1..])
  }

  lemma {:induction false} CallsAppend(a: seq<Span>, b: seq<Span>)
    ensures Calls(a + b) == Calls(a) + Calls(b)
    ensures DelayCount(a + b) == DelayCount(a) + DelayCount(b)
  {
    if a == [] {
      assert a + b == b;
    } else {
      var ab := a + b;
      assert ab[0] == a[0];
      assert ab[1..] == a[1..] + b;
      CallsAppend(a[1..], b);
      var h := if a[0].step.Fetch? then [a[0].step.call] else [];
      assert Calls(ab) == h + Calls(a[1..] + b);
      assert Calls(a) == h + Calls(a[1..]);
      assert h + (Calls(a[1..]) + Calls(b)) == (h + Calls(a[1..])) + Calls(b);
    }
  }

  /** A non-final call of a chain is followed by its pause and the rest. */
  lemma ChainCons(series: seq<SeriesId>, t: int, latency: Call -> nat)
    requires |series| > 1
    ensures var fin := t + latency(Riksbank(series[0]));
      Chain(series, t, latency) ==
        [Span(Fetch(Riksbank(series[0])), t, fin)] +
        ([Span(Delay(DELAY_MS), fin, fin + DELAY_MS)] + Chain(series[1..], fin + DELAY_MS, latency))
  {
  }

  lemma CallsSingle(s: Span)
    ensures Calls([s]) == if s.step.Fetch? then [s.step.call] else []
    ensures DelayCount([s]) == if s.step.Delay? then 1 else 0
  {
    assert [s][1..] == [];
  }

  /** A chain makes exactly its calls, in order, with one pause fewer than
      calls. */
  lemma {:induction false} ChainShape(series: seq<SeriesId>, t: int, latency: Call -> nat)
    ensures Calls(Chain(series, t, latency)) == RiksbankCalls(series)
    ensures DelayCount(Chain(series, t, latency)) == if series == [] then 0 else |series| - 1
    decreases |series|
  {
    if series != [] {
      var fin := t + latency(Riksbank(series[0]));
      var head := Span(Fetch(Riksbank(series[0])), t, fin);
      CallsSingle(head);
      assert RiksbankCalls(series) == [Riksbank(series[0])] + RiksbankCalls(series[1..]);
      if |series| == 1 {
        assert Chain(series, t, latency) == [head];
        assert series[1..] == [];
      } else {
        var pause := Span(Delay(DELAY_MS), fin, fin + DELAY_MS);
        var rest := Chain(series[1..], fin + DELAY_MS, latency);
        ChainCons(series, t, latency);
        ChainShape(series[1..], fin + DELAY_MS, latency);
        CallsSingle(pause);
        CallsAppend([pause], rest);
        assert Calls([pause] + rest) == Calls(rest);
        CallsAppend([head], [pause] + rest);
        assert Calls(Chain(series, t, latency)) == [Riksbank(series[0])] + Calls(rest);
        assert DelayCount(Chain(series, t, latency)) == 1 + DelayCount(rest);
      }
    }
  }

  /** No step of a chain begins before the chain does. */
  lemma {:induction false} ChainStartsLate(series: seq<SeriesId>, t: int, latency: Call -> nat, k: nat)
    requires k < |Chain(series, t, latency)|
    ensures t <= Chain(series, t, latency)[k].start
    decreases |series|
  {
    var fin := t + latency(Riksbank(series[0]));
    if k >= 2 {
      ChainStartsLate(series[1..], fin + DELAY_MS, latency, k - 2);
    }
  }

  /** Consecutive rate-limited calls are separated by a full pause: the next
      call is dispatched exactly DELAY_MS after the previous one completed. */
  lemma {:induction false} ChainGaps(series: seq<SeriesId>, t: int, latency: Call -> nat, k: nat)
    requires k + 2 < |Chain(series, t, latency)|
    requires Chain(series, t, latency)[k].step.Fetch?
    ensures Chain(series, t, latency)[k + 1].step == Delay(DELAY_MS)
    ensures Chain(series, t, latency)[k + 1].start == Chain(series, t, latency)[k].end
    ensures Chain(series, t, latency)[k + 2].step.Fetch?
    ensures Chain(series, t, latency)[k + 2].start - Chain(series, t, latency)[k].end == DELAY_MS
    decreases |series|
  {
    var fin := t + latency(Riksbank(series[0]));
    if |series| > 1 {
      var rest := Chain(series[1..], fin + DELAY_MS, latency);
      assert Chain(series, t, latency) == [Span(Fetch(Riksbank(series[0])), t, fin), Span(Delay(DELAY_MS), fin, fin + DELAY_MS)] + rest;
      if k >= 2 {
        ChainGaps(series[1..], fin + DELAY_MS, latency, k - 2);
      } else if k == 0 {
        assert rest != [];
      }
    }
  }

  /** The schedule of getMacro: the Riksbank calls run REPO, SEK/EUR,
      SEK/USD, EUR/USD in that order after the four SCB/ECB calls, and exactly
      three pauses occur. */
  lemma {:induction false} ScheduleOrder(t: int, latency: Call -> nat)
    ensures Calls(Schedule(t, latency)) ==
      [ScbGdp, ScbInflation, ScbUnemployment, Ecb,
       Riksbank(REPO), Riksbank(SEK_EUR), Riksbank(SEK_USD), Riksbank(EUR_USD)]
    ensures DelayCount(Schedule(t, latency)) == 3
  {
    var g := ParallelGroup(t, latency);
    var c := Chain(RIKSBANK_ORDER, GroupEnd(t, latency), latency);
    ChainShape(RIKSBANK_ORDER, GroupEnd(t, latency), latency);
    CallsAppend(g, c);
    GroupCalls(t, latency);
    OrderCalls();
  }

  /** The unthrottled group calls SCB three times, then the ECB, and never
      pauses. */
  lemma GroupCalls(t: int, latency: Call -> nat)
    ensures Calls(ParallelGroup(t, latency)) == [ScbGdp, ScbInflation, ScbUnemployment, Ecb]
    ensures DelayCount(ParallelGroup(t, latency)) == 0
  {
    var g := ParallelGroup(t, latency);
    assert g[3..][1..] == [];
    assert Calls(g[3..]) == [Ecb] && DelayCount(g[3..]) == 0;
    assert g[2..][1..] == g[3..];
    assert Calls(g[2..]) == [ScbUnemployment, Ecb] && DelayCount(g[2..]) == 0;
    assert g[1..][1..] == g[2..];
    assert Calls(g[1..]) == [ScbInflation, ScbUnemployment, Ecb] && DelayCount(g[1..]) == 0;
  }

  lemma OrderCalls()
    ensures RiksbankCalls(RIKSBANK_ORDER) == [Riksbank(REPO), Riksbank(SEK_EUR), Riksbank(SEK_USD), Riksbank(EUR_USD)]
  {
    var s := RIKSBANK_ORDER;
    assert s[1..][1..][1..][1..] == [];
    assert RiksbankCalls(s[1..][1..][1..]) == [Riksbank(EUR_USD)];
    assert RiksbankCalls(s[1..][1..]) == [Riksbank(SEK_USD), Riksbank(EUR_USD)];
    assert RiksbankCalls(s[1..]) == [Riksbank(SEK_EUR), Riksbank(SEK_USD), Riksbank(EUR_USD)];
  }

  /** The unthrottled calls have all completed before the first Riksbank call
      is dispatched. */
  lemma ScheduleScbFirst(t: int, latency: Call -> nat, i: nat, k: nat)
    requires i < 4 && k < |Chain(RIKSBANK_ORDER, GroupEnd(t, latency), latency)|
    ensures ParallelGroup(t, latency)[i].end <= Chain(RIKSBANK_ORDER, GroupEnd(t, latency), latency)[k].start
  {
    assert ParallelGroup(t, latency)[i] in ParallelGroup(t, latency);
    ChainStartsLate(RIKSBANK_ORDER, GroupEnd(t, latency), latency, k);
  }

  // ---------------------------------------------------------------------
  // getMacro

  /** The rate-limited part of getMacro: the four Riksbank series fetched
      one after another from `clock` on, with a pause after each but the
      last. */
  method FetchRiksbankSeries(up: Upstream, latency: Call -> nat, clock: int)
    returns (repo: Option<real>, sekEur: Option<real>, sekUsd: Option<real>, eurUsd: Option<real>, trace: seq<Span>)
    ensures repo == FetchRiksbankData(REPO, up.repo) && sekEur == FetchRiksbankData(SEK_EUR, up.sekEur)
    ensures sekUsd == FetchRiksbankData(SEK_USD, up.sekUsd) && eurUsd == FetchRiksbankData(EUR_USD, up.eurUsd)
    ensures trace == Chain(RIKSBANK_ORDER, clock, latency)
  {
    repo := FetchRiksbankData(REPO, up.repo);
    var t1 := clock + latency(Riksbank(REPO));
    var t2 := t1 + DELAY_MS;
    sekEur := FetchRiksbankData(SEK_EUR, up.sekEur);
    var t3 := t2 + latency(Riksbank(SEK_EUR));
    var t4 := t3 + DELAY_MS;
    sekUsd := FetchRiksbankData(SEK_USD, up.sekUsd);
    var t5 := t4 + latency(Riksbank(SEK_USD));
    var t6 := t5 + DELAY_MS;
    eurUsd := FetchRiksbankData(EUR_USD, up.eurUsd);
    var t7 := t6 + latency(Riksbank(EUR_USD));
    trace :=
      [Span(Fetch(Riksbank(REPO)), clock, t1), Span(Delay(DELAY_MS), t1, t2),
       Span(Fetch(Riksbank(SEK_EUR)), t2, t3), Span(Delay(DELAY_MS), t3, t4),
       Span(Fetch(Riksbank(SEK_USD)), t4, t5), Span(Delay(DELAY_MS), t5, t6),
       Span(Fetch(Riksbank(EUR_USD)), t6, t7)];
    ChainUnfold(clock, latency);
  }

  /** getMacro. It performs the calls on the logical clock starting at
      `start` and records every step in `trace`; `updated` stands for
      dayjs().toISOString(); `aborted` stands for an exception escaping the
      try block, which yields the all-fallback record. `apiSources` and
      `fallbackSources` are the two lists the source logs. */
  method GetMacro(up: Upstream, latency: Call -> nat, start: int, updated: string, aborted: bool)
    returns (result: MacroData, trace: seq<Span>, apiSources: seq<string>, fallbackSources: seq<string>)
    ensures trace == Schedule(start, latency)
    ensures result.updated == updated
    ensures !aborted ==> forall i :: Field(result, i) == Nullish(LiveValue(up, i), Fallback(i))
    ensures aborted ==> forall i :: Field(result, i) == Num(Fallback(i))
    ensures !aborted ==> apiSources == Labels(LiveSet(up), INDICATORS, true)
    ensures !aborted ==> fallbackSources == Labels(LiveSet(up), INDICATORS, false)
  {
    // Promise.all over the four unthrottled fetchers
    var gdpData := FetchScb(up.gdp);
    var inflationData := FetchScb(up.inflation);
    var unemploymentData := FetchScb(up.unemployment);
    var ecbRateData := FetchEcbRate();
    var group := ParallelGroup(start, latency);

    // The Riksbank series, one at a time
    var repoRateData, sekEurData, sekUsdData, eurUsdData, chain :=
      FetchRiksbankSeries(up, latency, GroupEnd(start, latency));
    trace := group + chain;

    var usdSekData: Option<JsNumber> := None;
    if sekUsdData.Some? {
      usdSekData := Some(Reciprocal(sekUsdData.value));
    }

    apiSources, fallbackSources := [], [];
    if aborted {
      result := AllFallback(updated);
      return;
    }

    var live := LiveData(gdpData, inflationData, unemploymentData, ecbRateData,
      OptNum(repoRateData), OptNum(sekEurData), usdSekData, OptNum(eurUsdData));
    assert live == Live(up);
    result := Resolve(updated, live);
    var present := PresentSet(live);
    apiSources, fallbackSources := RecordSources(present);
  }

  /** The label an indicator contributes to the live list (live == true) or
      the fallback list, given the indicators that have a live value. */
  function LabelIf(present: set<Indicator>, i: Indicator, live: bool): seq<string> {
    if (i in present) == live then [if live then ApiLabel(i) else FallbackLabel(i)] else []
  }

  /** The labels the indicators `ids` contribute, in order. */
  function Labels(present: set<Indicator>, ids: seq<Indicator>, live: bool): seq<string> {
    if ids == [] then []
    else Labels(present, ids[..|ids| - 1], live) + LabelIf(present, ids[|ids| - 1], live)
  }

  lemma LabelsSnoc(present: set<Indicator>, ids: seq<Indicator>, i: Indicator)
    ensures Labels(present, ids + [i], true) == Labels(present, ids, true) + LabelIf(present, i, true)
    ensures Labels(present, ids + [i], false) == Labels(present, ids, false) + LabelIf(present, i, false)
  {
    assert (ids + [i])[..|ids|] == ids;
  }

  /** Each of the indicators is listed exactly once: among the live sources
      when it has a live value, among the fallback sources otherwise. */
  lemma {:induction false} ProvenancePartition(present: set<Indicator>, ids: seq<Indicator>, i: Indicator)
    ensures |Labels(present, ids, true)| + |Labels(present, ids, false)| == |ids|
    ensures ApiLabel(i) in Labels(present, ids, true) <==> i in ids && i in present
    ensures FallbackLabel(i) in Labels(present, ids, false) <==> i in ids && i !in present
    ensures ApiLabel(i) !in Labels(present, ids, false) && FallbackLabel(i) !in Labels(present, ids, true)
  {
    if ids != [] {
      var last := ids[|ids| - 1];
      ProvenancePartition(present, ids[..|ids| - 1], i);
      LabelsDistinct(i, last);
      LabelsDistinct(last, i);
      assert ids == ids[..|ids| - 1] + [last];
    }
  }

  /** For the eight indicators of a pass: an indicator is named in the live
      list iff it had a live value, and in the fallback list otherwise. */
  lemma SourcesOfPass(up: Upstream, i: Indicator)
    ensures |Labels(LiveSet(up), INDICATORS, true)| + |Labels(LiveSet(up), INDICATORS, false)| == |INDICATORS|
    ensures ApiLabel(i) in Labels(LiveSet(up), INDICATORS, true) <==> LiveValue(up, i).Some?
    ensures FallbackLabel(i) in Labels(LiveSet(up), INDICATORS, false) <==> LiveValue(up, i).None?
  {
    ProvenancePartition(LiveSet(up), INDICATORS, i);
    AllIndicatorsListed(i);
  }

  /** One `if (x !== null) apiSources.push(..) else fallbackSources.push(..)`
      of getMacro, for the k-th indicator. */
  method RecordOne(present: set<Indicator>, k: nat, api: seq<string>, fb: seq<string>)
    returns (api': seq<string>, fb': seq<string>)
    requires k < |INDICATORS|
    requires api == Labels(present, INDICATORS[..k], true) && fb == Labels(present, INDICATORS[..k], false)
    ensures api' == Labels(present, INDICATORS[..k + 1], true) && fb' == Labels(present, INDICATORS[..k + 1], false)
  {
    var x := INDICATORS[k];
    assert INDICATORS[..k + 1] == INDICATORS[..k] + [x];
    LabelsSnoc(present, INDICATORS[..k], x);
    if x in present {
      api', fb' := api + [ApiLabel(x)], fb;
    } else {
      api', fb' := api, fb + [FallbackLabel(x)];
    }
  }

  /** The two provenance lists at the end of getMacro, pushed indicator by
      indicator in the order of the source; `present` holds the indicators
      whose fetched value is not null. */
  method RecordSources(present: set<Indicator>) returns (apiSources: seq<string>, fallbackSources: seq<string>)
    ensures apiSources == Labels(present, INDICATORS, true)
    ensures fallbackSources == Labels(present, INDICATORS, false)
  {
    apiSources, fallbackSources := [], [];
    assert INDICATORS[..0] == [];
    apiSources, fallbackSources := RecordOne(present, 0, apiSources, fallbackSources);  // BNP
    apiSources, fallbackSources := RecordOne(present, 1, apiSources, fallbackSources);  // Inflation
    apiSources, fallbackSources := RecordOne(present, 2, apiSources, fallbackSources);  // Arbetslöshet
    apiSources, fallbackSources := RecordOne(present, 3, apiSources, fallbackSources);  // ECB-ränta
    apiSources, fallbackSources := RecordOne(present, 4, apiSources, fallbackSources);  // Reporänta
    apiSources, fallbackSources := RecordOne(present, 5, apiSources, fallbackSources);  // SEK/EUR
    apiSources, fallbackSources := RecordOne(present, 6, apiSources, fallbackSources);  // USD/SEK
    apiSources, fallbackSources := RecordOne(present, 7, apiSources, fallbackSources);  // EUR/USD
    assert INDICATORS[..8] == INDICATORS;
  }

  /** The chain of the four Riksbank series written out. */
  lemma ChainUnfold(t: int, latency: Call -> nat)
    ensures var t1 := t + latency(Riksbank(REPO));
      var t2 := t1 + DELAY_MS;
      var t3 := t2 + latency(Riksbank(SEK_EUR));
      var t4 := t3 + DELAY_MS;
      var t5 := t4 + latency(Riksbank(SEK_USD));
      var t6 := t5 + DELAY_MS;
      var t7 := t6 + latency(Riksbank(EUR_USD));
      Chain(RIKSBANK_ORDER, t, latency) ==
        [Span(Fetch(Riksbank(REPO)), t, t1), Span(Delay(DELAY_MS), t1, t2),
         Span(Fetch(Riksbank(SEK_EUR)), t2, t3), Span(Delay(DELAY_MS), t3, t4),
         Span(Fetch(Riksbank(SEK_USD)), t4, t5), Span(Delay(DELAY_MS), t5, t6),
         Span(Fetch(Riksbank(EUR_USD)), t6, t7)]
  {
    var t1 := t + latency(Riksbank(REPO));
    var t2 := t1 + DELAY_MS;
    var t3 := t2 + latency(Riksbank(SEK_EUR));
    var t4 := t3 + DELAY_MS;
    var t5 := t4 + latency(Riksbank(SEK_USD));
    var t6 := t5 + DELAY_MS;
    var t7 := t6 + latency(Riksbank(EUR_USD));
    var s := RIKSBANK_ORDER;
    assert s[1..] == [SEK_EUR, SEK_USD, EUR_USD];
    assert s[1..][1..] == [SEK_USD, EUR_USD];
    assert s[1..][1..][1..] == [EUR_USD];
    var c3 := Chain([EUR_USD], t6, latency);
    assert c3 == [Span(Fetch(Riksbank(EUR_USD)), t6, t7)];
    var c2 := Chain([SEK_USD, EUR_USD], t4, latency);
    assert c2 == [Span(Fetch(Riksbank(SEK_USD)), t4, t5)] + ([Span(Delay(DELAY_MS), t5, t6)] + c3);
    var c1 := Chain([SEK_EUR, SEK_USD, EUR_USD], t2, latency);
    assert c1 == [Span(Fetch(Riksbank(SEK_EUR)), t2, t3)] + ([Span(Delay(DELAY_MS), t3, t4)] + c2);
    assert Chain(s, t, latency) == [Span(Fetch(Riksbank(REPO)), t, t1)] + ([Span(Delay(DELAY_MS), t1, t2)] + c1);
  }

}
