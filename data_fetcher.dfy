/** The older economic-data layer of lib/dataFetcher.ts: the SCB series
    transforms (map with index, `|| 0`, ratio changes, `slice(-n)`), the
    three live figures with their `||` defaults, the series dispatch, the
    key-metric cards and the constant payment shares.

    A JavaScript number is a JsNumber; upstream replies are parameters.
    `toFixed` is not evaluated: a card shows a number together with the
    number of decimals it is rendered with. */
module DataFetcher {
  import opened Common

  // ---------------------------------------------------------------------
  // JavaScript number operations

  /** `x || d` on a number: 0 and NaN are falsy, every other number
      (the infinities included) is kept. */
  function OrNumber(x: JsNumber, d: real): (r: JsNumber)
    ensures x == NaN || x == Num(0.0) ==> r == Num(d)
    ensures x != NaN && x != Num(0.0) ==> r == x
    ensures r != NaN
  {
    if x.NaN? || x == Num(0.0) then Num(d) else x
  }

  /** `x > 0` and `x < 0` on a number; NaN compares false both ways. */
  predicate JsPositive(x: JsNumber) {
    x.PosInf? || (x.Num? && x.v > 0.0)
  }

  predicate JsNegative(x: JsNumber) {
    x.NegInf? || (x.Num? && x.v < 0.0)
  }

  function JsNeg(a: JsNumber): JsNumber {
    match a
    case Num(v) => Num(-v)
    case NaN => NaN
    case PosInf => NegInf
    case NegInf => PosInf
  }

  /** `a + b`: opposite infinities give NaN, an infinity absorbs a finite
      value. */
  function JsAdd(a: JsNumber, b: JsNumber): JsNumber {
    if a.NaN? || b.NaN? then NaN
    else if a.Num? && b.Num? then Num(a.v + b.v)
    else if a.Num? then b
    else if b.Num? || a == b then a
    else NaN
  }

  function JsSub(a: JsNumber, b: JsNumber): JsNumber {
    JsAdd(a, JsNeg(b))
  }

  /** The infinity whose sign is that of a product or quotient of a value
      of sign `a` by one of sign `b`. */
  function SignedInf(a: bool, b: bool): JsNumber {
    if a == b then PosInf else NegInf
  }

  /** `a * b`: an infinity times zero is NaN. */
  function JsMul(a: JsNumber, b: JsNumber): JsNumber {
    if a.NaN? || b.NaN? then NaN
    else if a.Num? && b.Num? then Num(a.v * b.v)
    else if a == Num(0.0) || b == Num(0.0) then NaN
    else SignedInf(JsPositive(a), JsPositive(b))
  }

  /** `a / b`: a non-zero number over zero is an infinity of its sign,
      0 / 0 and an infinity over an infinity are NaN, a number over an
      infinity is 0. A zero divisor counts as +0. */
  function JsDiv(a: JsNumber, b: JsNumber): JsNumber {
    if a.NaN? || b.NaN? then NaN
    else if a.Num? && b.Num? then
      if b.v != 0.0 then Num(a.v / b.v)
      else if a.v == 0.0 then NaN
      else SignedInf(a.v > 0.0, true)
    else if a.Num? then Num(0.0)
    else if b.Num? then SignedInf(JsPositive(a), b.v >= 0.0)
    else NaN
  }

  // ---------------------------------------------------------------------
  // SCB series

  /** One element of `data.data`: `key[1]`, and `values[0]` read both ways
      the source reads it — with parseFloat, and with the implicit number
      conversion of `/` (which differ on text such as "12abc" or ""). */
  datatype Row = Row(key1: string, parsed: JsNumber, coerced: JsNumber)

  /** A series reply: the request or the JSON decoding threw, or a response
      with its `ok` flag and `data.data` when present. */
  datatype SeriesReply = SeriesFailed | SeriesResponse(ok: bool, data: Option<seq<Row>>)

  datatype EconomicData = EconomicData(period: string, value: JsNumber, change: Option<JsNumber>)

  /** `(parseFloat(values[0]) / previous.values[0] - 1) * 100`. */
  function PercentChange(rows: seq<Row>, index: nat): JsNumber
    requires 0 < index < |rows|
  {
    JsMul(JsSub(JsDiv(rows[index].parsed, rows[index - 1].coerced), Num(1.0)), Num(100.0))
  }

  /** The GDP element for data.data[index]. */
  function GdpEntry(rows: seq<Row>, index: nat): EconomicData
    requires index < |rows|
  {
    EconomicData(
      rows[index].key1 + " Q" + NatToString(index / 3 + 1),
      OrNumber(rows[index].parsed, 0.0),
      Some(if index > 0 then PercentChange(rows, index) else Num(0.0)))
  }

  /** The monthly element used by the inflation and unemployment series. */
  function MonthlyEntry(rows: seq<Row>, index: nat): EconomicData
    requires index < |rows|
  {
    EconomicData(rows[index].key1, OrNumber(rows[index].parsed, 0.0), None)
  }

  /** The house-price element: the value is the change against the previous
      element, 0 for the first. */
  function HousePriceEntry(rows: seq<Row>, index: nat): EconomicData
    requires index < |rows|
  {
    EconomicData(rows[index].key1, if index > 0 then PercentChange(rows, index) else Num(0.0), None)
  }

  datatype SeriesKind = Gdp | Inflation | Unemployment | HousePrices

  /** `data.data.map((item, index) => ..)` for a series kind. */
  function MapRows(kind: SeriesKind, rows: seq<Row>): (r: seq<EconomicData>)
    ensures |r| == |rows|
    ensures kind == Gdp ==> forall i :: 0 <= i < |rows| ==> r[i] == GdpEntry(rows, i)
    ensures kind == HousePrices ==> forall i :: 0 <= i < |rows| ==> r[i] == HousePriceEntry(rows, i)
    ensures kind == Inflation || kind == Unemployment ==> forall i :: 0 <= i < |rows| ==> r[i] == MonthlyEntry(rows, i)
  {
    match kind
    case Gdp => seq(|rows|, i requires 0 <= i < |rows| => GdpEntry(rows, i))
    case HousePrices => seq(|rows|, i requires 0 <= i < |rows| => HousePriceEntry(rows, i))
    case _ => seq(|rows|, i requires 0 <= i < |rows| => MonthlyEntry(rows, i))
  }

  /** How many elements a series keeps: 8 quarters, or 12 months. */
  function Keep(kind: SeriesKind): nat {
    if kind == Gdp || kind == HousePrices then 8 else 12
  }

  /** fetchRealGDPData, fetchRealInflationData, fetchRealUnemploymentData and
      fetchRealHousePriceData. Only the GDP fetch throws on `!response.ok`;
      a missing `data.data` short-circuits the optional chain to `|| []`. */
  function FetchSeries(kind: SeriesKind, reply: SeriesReply): (r: seq<EconomicData>)
    ensures |r| <= Keep(kind)
    ensures reply.SeriesFailed? || reply.data.None? || (kind == Gdp && !reply.ok) ==> r == []
    ensures reply.SeriesResponse? && reply.data.Some? && (kind != Gdp || reply.ok) ==>
      r == LastN(MapRows(kind, reply.data.value), Keep(kind))
  {
    match reply
    case SeriesFailed => []
    case SeriesResponse(ok, data) =>
      if kind == Gdp && !ok then []
      else if data.None? then []
      else LastN(MapRows(kind, data.value), Keep(kind))
  }

  /** The entries of a fetched series are the last ones of the mapped
      series: the i-th returned entry is the one for data.data[offset + i]. */
  lemma SeriesIsSuffix(kind: SeriesKind, rows: seq<Row>, i: nat)
    requires i < |FetchSeries(kind, SeriesResponse(true, Some(rows)))|
    ensures |FetchSeries(kind, SeriesResponse(true, Some(rows)))| <= |rows|
    ensures FetchSeries(kind, SeriesResponse(true, Some(rows)))[i]
      == MapRows(kind, rows)[|rows| - |FetchSeries(kind, SeriesResponse(true, Some(rows)))| + i]
  {
    var m := MapRows(kind, rows);
    assert |m| == |rows|;
    LastNOffset(FetchSeries(kind, SeriesResponse(true, Some(rows))), m, Keep(kind), i);
  }

  /** The first element of a mapped GDP series has change 0, that of a
      house-price series the value 0. */
  lemma FirstEntries(rows: seq<Row>)
    requires |rows| > 0
    ensures MapRows(Gdp, rows)[0].change == Some(Num(0.0))
    ensures MapRows(HousePrices, rows)[0].value == Num(0.0)
  {
  }

  /** Values read with `|| 0` are never NaN: every GDP, inflation and
      unemployment value is a number, and a NaN or zero reading shows 0. */
  lemma ValuesAreNumbers(kind: SeriesKind, reply: SeriesReply, i: nat)
    requires kind != HousePrices && i < |FetchSeries(kind, reply)|
    ensures FetchSeries(kind, reply)[i].value != NaN
  {
    var rows := reply.data.value;
    var m := MapRows(kind, rows);
    assert FetchSeries(kind, reply) == LastN(m, Keep(kind));
    LastNIndex(m, Keep(kind), i);
    var j := |m| - |FetchSeries(kind, reply)| + i;
    assert m[j].value == OrNumber(rows[j].parsed, 0.0);
  }

  /** fetchEconomicData(type): the series of a known type, [] for any other
      type string. Its own catch is unreachable: every series fetch already
      catches its errors. */
  function FetchEconomicData(typeName: string, reply: SeriesReply): (r: seq<EconomicData>)
    ensures typeName !in {"gdp", "inflation", "unemployment", "house_prices"} ==> r == []
    ensures typeName == "gdp" ==> r == FetchSeries(Gdp, reply)
    ensures typeName == "inflation" ==> r == FetchSeries(Inflation, reply)
    ensures typeName == "unemployment" ==> r == FetchSeries(Unemployment, reply)
    ensures typeName == "house_prices" ==> r == FetchSeries(HousePrices, reply)
  {
    match KindOf(typeName)
    case None => []
    case Some(kind) => FetchSeries(kind, reply)
  }

  function KindOf(typeName: string): Option<SeriesKind> {
    if typeName == "gdp" then Some(Gdp)
    else if typeName == "inflation" then Some(Inflation)
    else if typeName == "unemployment" then Some(Unemployment)
    else if typeName == "house_prices" then Some(HousePrices)
    else None
  }

  // ---------------------------------------------------------------------
  // Live figures

  /** A JSON field as the source reads it: absent (undefined or null), a
      number, or a string together with what parseFloat makes of it. */
  datatype JsValue = Missing | Number(n: JsNumber) | Text(s: string, parsed: JsNumber)

  predicate Falsy(v: JsValue) {
    match v
    case Missing => true
    case Number(n) => n == NaN || n == Num(0.0)
    case Text(s, _) => s == ""
  }

  /** `parseFloat((field || d).toString())`. */
  function LiveFigure(v: JsValue, d: real): (r: JsNumber)
    ensures Falsy(v) ==> r == Num(d)
    ensures v.Number? && !Falsy(v) ==> r == v.n
    ensures v.Text? && !Falsy(v) ==> r == v.parsed
  {
    if Falsy(v) then Num(d)
    else match v
      case Number(n) => n
      case Text(_, parsed) => parsed
  }

  /** One of the three requests of fetchLiveEconomicData: it (or its
      `.json()`) throws, or it yields the first observation's field. */
  datatype LiveReply = LiveThrows | LiveJson(first: JsValue)

  datatype LiveEconomicData = LiveEconomicData(timestamp: string, repoRate: JsNumber, exchangeRate: JsNumber, debtRatio: JsNumber)

  const REPO_DEFAULT: real := 4.00
  const EXCHANGE_DEFAULT: real := 11.42
  const DEBT_DEFAULT: real := 185.0

  /** The record fetchLiveEconomicData produces for the three replies. */
  function LiveEconomic(timestamp: string, repo: LiveReply, exchange: LiveReply, debt: LiveReply): LiveEconomicData {
    if repo.LiveThrows? || exchange.LiveThrows? || debt.LiveThrows?
    then LiveEconomicData(timestamp, Num(REPO_DEFAULT), Num(EXCHANGE_DEFAULT), Num(DEBT_DEFAULT))
    else LiveEconomicData(timestamp,
      LiveFigure(repo.first, REPO_DEFAULT), LiveFigure(exchange.first, EXCHANGE_DEFAULT), LiveFigure(debt.first, DEBT_DEFAULT))
  }

  /** fetchLiveEconomicData: the three requests in order; the first one that
      throws ends the attempt, and the catch returns the three defaults.
      `requests` counts the requests that were issued. */
  method FetchLiveEconomicData(timestamp: string, repo: LiveReply, exchange: LiveReply, debt: LiveReply)
    returns (r: LiveEconomicData, requests: nat)
    ensures r == LiveEconomic(timestamp, repo, exchange, debt)
    ensures requests == if repo.LiveThrows? then 1 else if exchange.LiveThrows? then 2 else 3
  {
    requests := 1;
    if repo.LiveThrows? {
      return LiveEconomicData(timestamp, Num(REPO_DEFAULT), Num(EXCHANGE_DEFAULT), Num(DEBT_DEFAULT)), requests;
    }
    var repoRate := LiveFigure(repo.first, REPO_DEFAULT);
    requests := 2;
    if exchange.LiveThrows? {
      return LiveEconomicData(timestamp, Num(REPO_DEFAULT), Num(EXCHANGE_DEFAULT), Num(DEBT_DEFAULT)), requests;
    }
    var exchangeRate := LiveFigure(exchange.first, EXCHANGE_DEFAULT);
    requests := 3;
    if debt.LiveThrows? {
      return LiveEconomicData(timestamp, Num(REPO_DEFAULT), Num(EXCHANGE_DEFAULT), Num(DEBT_DEFAULT)), requests;
    }
    var debtRatio := LiveFigure(debt.first, DEBT_DEFAULT);
    r := LiveEconomicData(timestamp, repoRate, exchangeRate, debtRatio);
  }

  /** A live zero is falsy, so it is replaced by the default like a missing
      value; a thrown request makes all three figures fall back together. */
  lemma LiveFallbacks(timestamp: string, repo: LiveReply, exchange: LiveReply, debt: LiveReply)
    ensures !exchange.LiveThrows? && !debt.LiveThrows? && repo == LiveJson(Number(Num(0.0))) ==>
      LiveEconomic(timestamp, repo, exchange, debt).repoRate == Num(4.00)
    ensures repo.LiveThrows? || exchange.LiveThrows? || debt.LiveThrows? ==>
      var d := LiveEconomic(timestamp, repo, exchange, debt);
      d.repoRate == Num(4.00) && d.exchangeRate == Num(11.42) && d.debtRatio == Num(185.0)
  {
  }

  // ---------------------------------------------------------------------
  // Key metrics

  datatype ChangeType = Positive | Negative | Neutral

  /** A rendered figure: `x.toFixed(digits)`, the same with a leading '+',
      or a literal string. */
  datatype Shown = Fixed(x: JsNumber, digits: nat) | PlusFixed(x: JsNumber, digits: nat) | Literal(s: string)

  datatype Metric = Metric(title: string, value: Shown, unit: string, change: Shown, changeType: ChangeType, description: string)

  function LastValue(s: seq<EconomicData>): Option<EconomicData> {
    if s == [] then None else Some(s[|s| - 1])
  }

  /** `latestGdp?.change || 0`: the change of the last entry when it is a
      truthy number, otherwise 0; never NaN. */
  function GdpChange(gdp: seq<EconomicData>): (c: JsNumber)
    ensures gdp == [] ==> c == Num(0.0)
    ensures gdp != [] && gdp[|gdp| - 1].change.None? ==> c == Num(0.0)
    ensures gdp != [] && gdp[|gdp| - 1].change.Some? ==>
      var x := gdp[|gdp| - 1].change.value;
      (x == NaN || x == Num(0.0) ==> c == Num(0.0)) && (x != NaN && x != Num(0.0) ==> c == x)
    ensures c != NaN
  {
    match LastValue(gdp)
    case None => Num(0.0)
    case Some(e) => if e.change.Some? then OrNumber(e.change.value, 0.0) else Num(0.0)
  }

  /** `latest.value - previous.value` of a series with two or more entries. */
  function LastDelta(s: seq<EconomicData>): JsNumber
    requires |s| > 1
  {
    JsSub(s[|s| - 1].value, s[|s| - 2].value)
  }

  /** The card of a monthly series (inflation and unemployment): the latest
      value, the latest difference, and 'positive' exactly when that
      difference is below zero (a falling rate is good news). */
  function MonthlyCard(title: string, description: string, s: seq<EconomicData>): (m: Metric)
    ensures m.title == title && m.unit == "%" && m.description == description
    ensures m.changeType == Positive <==> |s| > 1 && JsNegative(LastDelta(s))
    ensures m.changeType != Neutral
    ensures |s| <= 1 ==> m.change == Literal("0.0")
    ensures |s| > 1 ==> m.change == Fixed(LastDelta(s), 1)
    ensures s == [] ==> m.value == Literal("0.0")
    ensures s != [] ==> m.value == Fixed(s[|s| - 1].value, 1)
  {
    Metric(title,
      if s == [] then Literal("0.0") else Fixed(s[|s| - 1].value, 1),
      "%",
      if |s| > 1 then Fixed(LastDelta(s), 1) else Literal("0.0"),
      if |s| > 1 && JsNegative(LastDelta(s)) then Positive else Negative,
      description)
  }

  /** The four cards of fetchKeyMetrics for the values it fetched. */
  function KeyMetrics(live: LiveEconomicData, gdp: seq<EconomicData>, inflation: seq<EconomicData>, unemployment: seq<EconomicData>): (r: seq<Metric>)
    ensures |r| == 4
    ensures r[0].title == "BNP Tillväxt" && r[0].unit == "%" && r[0].description == "Kvartal över kvartal"
    ensures r[0].value == Fixed(GdpChange(gdp), 1)
    ensures r[0].changeType == Positive <==> JsPositive(GdpChange(gdp))
    ensures r[0].changeType != Neutral
    ensures JsPositive(GdpChange(gdp)) ==> r[0].change == PlusFixed(GdpChange(gdp), 1)
    ensures !JsPositive(GdpChange(gdp)) ==> r[0].change == Fixed(GdpChange(gdp), 1)
    ensures r[1] == MonthlyCard("Inflation (KPI)", "Årlig förändring", inflation)
    ensures r[2] == MonthlyCard("Arbetslöshet", "Senaste månaden", unemployment)
    ensures r[3].title == "Reporänta" && r[3].unit == "%" && r[3].description == "Senaste beslut"
    ensures r[3].changeType == Neutral && r[3].change == Literal("0.00") && r[3].value == Fixed(live.repoRate, 2)
  {
    var g := GdpChange(gdp);
    [Metric("BNP Tillväxt", Fixed(g, 1), "%", if JsPositive(g) then PlusFixed(g, 1) else Fixed(g, 1),
            if JsPositive(g) then Positive else Negative, "Kvartal över kvartal"),
     MonthlyCard("Inflation (KPI)", "Årlig förändring", inflation),
     MonthlyCard("Arbetslöshet", "Senaste månaden", unemployment),
     Metric("Reporänta", Fixed(live.repoRate, 2), "%", Literal("0.00"), Neutral, "Senaste beslut")]
  }

  /** For a GDP reply with at least two rows, the BNP card is 'positive'
      exactly when the last quarter's ratio change is a positive number or
      +Infinity, and it then shows that change with a '+'. */
  lemma GdpCardFollowsLastChange(rows: seq<Row>, live: LiveEconomicData, inflation: seq<EconomicData>, unemployment: seq<EconomicData>)
    requires |rows| > 1
    ensures var r := KeyMetrics(live, FetchSeries(Gdp, SeriesResponse(true, Some(rows))), inflation, unemployment);
      (r[0].changeType == Positive <==> JsPositive(PercentChange(rows, |rows| - 1))) &&
      (JsPositive(PercentChange(rows, |rows| - 1)) ==> r[0].change == PlusFixed(PercentChange(rows, |rows| - 1), 1))
  {
    var f := FetchSeries(Gdp, SeriesResponse(true, Some(rows)));
    var m := MapRows(Gdp, rows);
    assert f == LastN(m, 8);
    assert |f| > 0 by { LastNIndex(m, 8, 0); }
    LastNIndex(m, 8, |f| - 1);
    assert f[|f| - 1] == GdpEntry(rows, |rows| - 1);
    GdpCardOfChange(live, f, PercentChange(rows, |rows| - 1), inflation, unemployment);
  }

  /** The BNP card of a series whose last entry has change `x`. */
  lemma GdpCardOfChange(live: LiveEconomicData, gdp: seq<EconomicData>, x: JsNumber, inflation: seq<EconomicData>, unemployment: seq<EconomicData>)
    requires gdp != [] && gdp[|gdp| - 1].change == Some(x)
    ensures var r := KeyMetrics(live, gdp, inflation, unemployment);
      (r[0].changeType == Positive <==> JsPositive(x)) && (JsPositive(x) ==> r[0].change == PlusFixed(x, 1))
  {
    var g := GdpChange(gdp);
    assert JsPositive(x) ==> g == x;
    assert !JsPositive(x) ==> !JsPositive(g);
  }

  /** A zero in the previous quarter makes the ratio change +Infinity,
      which `|| 0` keeps (it is truthy): the card reads 'positive' with a
      '+Infinity' change. */
  lemma GdpZeroPreviousQuarter(live: LiveEconomicData, inflation: seq<EconomicData>, unemployment: seq<EconomicData>)
    ensures var rows := [Row("2024", Num(0.0), Num(0.0)), Row("2024", Num(1.5), Num(1.5))];
      var r := KeyMetrics(live, FetchSeries(Gdp, SeriesResponse(true, Some(rows))), inflation, unemployment);
      r[0].changeType == Positive && r[0].change == PlusFixed(PosInf, 1)
  {
    var rows := [Row("2024", Num(0.0), Num(0.0)), Row("2024", Num(1.5), Num(1.5))];
    GdpCardFollowsLastChange(rows, live, inflation, unemployment);
    assert PercentChange(rows, 1) == PosInf;
  }

  /** A GDP change of exactly zero is shown as negative, as is a missing
      latest entry; a series whose last two values fell is positive. */
  lemma ChangeTypeEdges(live: LiveEconomicData, inflation: seq<EconomicData>, unemployment: seq<EconomicData>)
    ensures KeyMetrics(live, [], inflation, unemployment)[0].changeType == Negative
    ensures KeyMetrics(live, [EconomicData("", Num(0.0), Some(Num(0.0)))], inflation, unemployment)[0].changeType == Negative
  {
  }

  /** fetchKeyMetrics: the live figures, then the three series, in that
      order. Its catch is unreachable: every fetch it awaits catches its own
      errors. */
  method FetchKeyMetrics(timestamp: string, repo: LiveReply, exchange: LiveReply, debt: LiveReply,
                         gdpReply: SeriesReply, inflationReply: SeriesReply, unemploymentReply: SeriesReply)
    returns (r: seq<Metric>)
    ensures r == KeyMetrics(LiveEconomic(timestamp, repo, exchange, debt),
      FetchSeries(Gdp, gdpReply), FetchSeries(Inflation, inflationReply), FetchSeries(Unemployment, unemploymentReply))
  {
    var liveData, _ := FetchLiveEconomicData(timestamp, repo, exchange, debt);
    var gdpData := FetchSeries(Gdp, gdpReply);
    var inflationData := FetchSeries(Inflation, inflationReply);
    var unemploymentData := FetchSeries(Unemployment, unemploymentReply);
    r := KeyMetrics(liveData, gdpData, inflationData, unemploymentData);
  }

  // ---------------------------------------------------------------------
  // Payment shares

  datatype PaymentData = PaymentData(name: string, value: nat, color: string)

  function PaymentShares(): seq<PaymentData> {
    [PaymentData("Swish", 45, "#0ea5e9"), PaymentData("Bankkort", 35, "#8b5cf6"),
     PaymentData("Kontanter", 8, "#f59e0b"), PaymentData("Övrigt", 12, "#6b7280")]
  }

  function SumShares(s: seq<PaymentData>): nat {
    if s == [] then 0 else s[0].value + SumShares(s[1..])
  }

  /** fetchPaymentData's four shares add up to 100 percent. */
  lemma PaymentSharesTotal()
    ensures SumShares(PaymentShares()) == 100
    ensures |PaymentShares()| == 4
  {
    var s := PaymentShares();
    assert s[1..][1..][1..][1..] == [];
  }
}
