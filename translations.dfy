/** The site's translation tables and the lookup with its fallback chain. */
module Translations {
  import opened Common

  /** The keys of the `Translations` interface, in its five groups. */
  datatype Key =
      Nav(nav: NavKey)
    | Dash(dash: DashKey)
    | Metric(metric: MetricKey)
    | Chart(chart: ChartKey)
    | Source(source: SourceKey)

  datatype NavKey = NavHome | NavDashboards | NavBlog | NavMacro | NavNavigation

  datatype DashKey = MacroTitle | MacroDescription | MacroUpdated | MacroRefresh | MacroRefreshing | MacroLive | MacroError

  datatype MetricKey = MetricGdp | MetricGdpDesc | MetricInflation | MetricInflationDesc | MetricUnemployment | MetricUnemploymentDesc | MetricRepoRate | MetricRepoRateDesc | MetricSekEur | MetricSekEurDesc | MetricUsdSek | MetricUsdSekDesc | MetricUsdEur | MetricUsdEurDesc | MetricDebtRatio | MetricDebtRatioDesc

  datatype ChartKey = ChartGdpTitle | ChartGdpSubtitle | ChartInflationTitle | ChartInflationSubtitle | ChartRatesTitle | ChartRatesSubtitle | ChartRepoTitle | ChartRepoSubtitle

  datatype SourceKey = SourcesTitle | SourcesLiveTitle | SourcesLiveDesc | SourcesUpdated

  /** The key as written in the source, e.g. `nav.home`. */
  function KeyName(k: Key): (r: string)
    ensures r != ""
  {
    match k
    case Nav(g) => KeyNameNav(g)
    case Dash(g) => KeyNameDash(g)
    case Metric(g) => KeyNameMetric(g)
    case Chart(g) => KeyNameChart(g)
    case Source(g) => KeyNameSource(g)
  }

  function KeyNameNav(g: NavKey): (r: string)
    ensures r != ""
  {
    match g
    case NavHome => "nav.home"
    case NavDashboards => "nav.dashboards"
    case NavBlog => "nav.blog"
    case NavMacro => "nav.macro"
    case NavNavigation => "nav.navigation"
  }

  function KeyNameDash(g: DashKey): (r: string)
    ensures r != ""
  {
    match g
    case MacroTitle => "macro.title"
    case MacroDescription => "macro.description"
    case MacroUpdated => "macro.updated"
    case MacroRefresh => "macro.refresh"
    case MacroRefreshing => "macro.refreshing"
    case MacroLive => "macro.live"
    case MacroError => "macro.error"
  }

  function KeyNameMetric(g: MetricKey): (r: string)
    ensures r != ""
  {
    match g
    case MetricGdp => "metric.gdp"
    case MetricGdpDesc => "metric.gdp.desc"
    case MetricInflation => "metric.inflation"
    case MetricInflationDesc => "metric.inflation.desc"
    case MetricUnemployment => "metric.unemployment"
    case MetricUnemploymentDesc => "metric.unemployment.desc"
    case MetricRepoRate => "metric.repo_rate"
    case MetricRepoRateDesc => "metric.repo_rate.desc"
    case MetricSekEur => "metric.sek_eur"
    case MetricSekEurDesc => "metric.sek_eur.desc"
    case MetricUsdSek => "metric.usd_sek"
    case MetricUsdSekDesc => "metric.usd_sek.desc"
    case MetricUsdEur => "metric.usd_eur"
    case MetricUsdEurDesc => "metric.usd_eur.desc"
    case MetricDebtRatio => "metric.debt_ratio"
    case MetricDebtRatioDesc => "metric.debt_ratio.desc"
  }

  function KeyNameChart(g: ChartKey): (r: string)
    ensures r != ""
  {
    match g
    case ChartGdpTitle => "chart.gdp.title"
    case ChartGdpSubtitle => "chart.gdp.subtitle"
    case ChartInflationTitle => "chart.inflation.title"
    case ChartInflationSubtitle => "chart.inflation.subtitle"
    case ChartRatesTitle => "chart.rates.title"
    case ChartRatesSubtitle => "chart.rates.subtitle"
    case ChartRepoTitle => "chart.repo.title"
    case ChartRepoSubtitle => "chart.repo.subtitle"
  }

  function KeyNameSource(g: SourceKey): (r: string)
    ensures r != ""
  {
    match g
    case SourcesTitle => "sources.title"
    case SourcesLiveTitle => "sources.live.title"
    case SourcesLiveDesc => "sources.live.desc"
    case SourcesUpdated => "sources.updated"
  }

  /** The Swedish table. It is written one key group at a time, following
      the groups of `Key`, so that each match stays small for the verifier;
      the Swedish object in lib/translations.ts is one flat table. */
  function SvTable(k: Key): (r: string)
    ensures r != ""
  {
    match k
    case Nav(g) => SvTableNav(g)
    case Dash(g) => SvTableDash(g)
    case Metric(g) => SvTableMetric(g)
    case Chart(g) => SvTableChart(g)
    case Source(g) => SvTableSource(g)
  }

  function SvTableNav(g: NavKey): (r: string)
    ensures r != ""
  {
    match g
    case NavHome => "Hem"
    case NavDashboards => "Dashboards"
    case NavBlog => "Blogg"
    case NavMacro => "Makroekonomi"
    case NavNavigation => "Navigation"
  }

  function SvTableDash(g: DashKey): (r: string)
    ensures r != ""
  {
    match g
    case MacroTitle => "\U{1F1F8}\U{1F1EA} Sveriges Makroekonomi Dashboard"
    case MacroDescription => "Kompletta ekonomiska nyckeltal och trender för den svenska ekonomin"
    case MacroUpdated => "Senast uppdaterad:"
    case MacroRefresh => "Uppdatera"
    case MacroRefreshing => "Uppdaterar..."
    case MacroLive => "Live"
    case MacroError => "Error"
  }

  function SvTableMetric(g: MetricKey): (r: string)
    ensures r != ""
  {
    match g
    case MetricGdp => "BNP Tillväxt"
    case MetricGdpDesc => "Kvartal över kvartal"
    case MetricInflation => "Inflation (KPI)"
    case MetricInflationDesc => "Årlig förändring"
    case MetricUnemployment => "Arbetslöshet"
    case MetricUnemploymentDesc => "Senaste månaden"
    case MetricRepoRate => "Reporänta"
    case MetricRepoRateDesc => "Sveriges Riksbank"
    case MetricSekEur => "SEK/EUR"
    case MetricSekEurDesc => "Svenska kronor per euro"
    case MetricUsdSek => "USD/SEK"
    case MetricUsdSekDesc => "US-dollar per svensk krona"
    case MetricUsdEur => "USD/EUR"
    case MetricUsdEurDesc => "US-dollar per euro"
    case MetricDebtRatio => "Skuldsättning"
    case MetricDebtRatioDesc => "Hushållsskulder/inkomst"
  }

  function SvTableChart(g: ChartKey): (r: string)
    ensures r != ""
  {
    match g
    case ChartGdpTitle => "BNP-tillväxt - Senaste kvartalen"
    case ChartGdpSubtitle => "Säsongrensad, kvartal över kvartal"
    case ChartInflationTitle => "Inflation (KPI) - Senaste månaderna"
    case ChartInflationSubtitle => "Årlig procentuell förändring"
    case ChartRatesTitle => "Växelkurser - Utveckling 2025"
    case ChartRatesSubtitle => "SEK/EUR och USD/SEK"
    case ChartRepoTitle => "Reporänta - Utveckling 2025"
    case ChartRepoSubtitle => "Sveriges Riksbanks styrränta"
  }

  function SvTableSource(g: SourceKey): (r: string)
    ensures r != ""
  {
    match g
    case SourcesTitle => "Datakällor och Notiser - Sveriges Ekonomi"
    case SourcesLiveTitle => "Live data från officiella källor"
    case SourcesLiveDesc => "Data hämtas direkt från SCB och Sveriges Riksbank via deras officiella API:er."
    case SourcesUpdated => "Senast uppdaterad:"
  }

  /** The English table, split by key group like `SvTable`. */
  function EnTable(k: Key): (r: string)
    ensures r != ""
  {
    match k
    case Nav(g) => EnTableNav(g)
    case Dash(g) => EnTableDash(g)
    case Metric(g) => EnTableMetric(g)
    case Chart(g) => EnTableChart(g)
    case Source(g) => EnTableSource(g)
  }

  function EnTableNav(g: NavKey): (r: string)
    ensures r != ""
  {
    match g
    case NavHome => "Home"
    case NavDashboards => "Dashboards"
    case NavBlog => "Blog"
    case NavMacro => "Macroeconomics"
    case NavNavigation => "Navigation"
  }

  function EnTableDash(g: DashKey): (r: string)
    ensures r != ""
  {
    match g
    case MacroTitle => "\U{1F1F8}\U{1F1EA} Swedish Macroeconomic Dashboard"
    case MacroDescription => "Comprehensive economic indicators and trends for the Swedish economy"
    case MacroUpdated => "Last updated:"
    case MacroRefresh => "Refresh"
    case MacroRefreshing => "Refreshing..."
    case MacroLive => "Live"
    case MacroError => "Error"
  }

  function EnTableMetric(g: MetricKey): (r: string)
    ensures r != ""
  {
    match g
    case MetricGdp => "GDP Growth"
    case MetricGdpDesc => "Quarter over quarter"
    case MetricInflation => "Inflation (CPI)"
    case MetricInflationDesc => "Annual change"
    case MetricUnemployment => "Unemployment"
    case MetricUnemploymentDesc => "Latest month"
    case MetricRepoRate => "Repo Rate"
    case MetricRepoRateDesc => "Sweden's Central Bank"
    case MetricSekEur => "SEK/EUR"
    case MetricSekEurDesc => "Swedish kronor per euro"
    case MetricUsdSek => "USD/SEK"
    case MetricUsdSekDesc => "US dollars per Swedish krona"
    case MetricUsdEur => "USD/EUR"
    case MetricUsdEurDesc => "US dollars per euro"
    case MetricDebtRatio => "Debt Ratio"
    case MetricDebtRatioDesc => "Household debt/income"
  }

  function EnTableChart(g: ChartKey): (r: string)
    ensures r != ""
  {
    match g
    case ChartGdpTitle => "GDP Growth - Recent Quarters"
    case ChartGdpSubtitle => "Seasonally adjusted, quarter over quarter"
    case ChartInflationTitle => "Inflation (CPI) - Recent Months"
    case ChartInflationSubtitle => "Annual percentage change"
    case ChartRatesTitle => "Exchange Rates - 2025 Development"
    case ChartRatesSubtitle => "SEK/EUR and USD/SEK"
    case ChartRepoTitle => "Repo Rate - 2025 Development"
    case ChartRepoSubtitle => "Sweden's Central Bank policy rate"
  }

  function EnTableSource(g: SourceKey): (r: string)
    ensures r != ""
  {
    match g
    case SourcesTitle => "Data Sources and Notes - Swedish Economy"
    case SourcesLiveTitle => "Live data from official sources"
    case SourcesLiveDesc => "Data is fetched directly from SCB and Sweden's Central Bank via their official APIs."
    case SourcesUpdated => "Last updated:"
  }

  /** The table of a locale (`translations[locale]`). */
  function Table(locale: Locale, k: Key): string {
    if locale == Sv then SvTable(k) else EnTable(k)
  }

  /** JavaScript's `a || b || c` on strings: the first non-empty one, else `c`. */
  function FirstNonEmpty(a: string, b: string, c: string): (r: string)
    ensures a != "" ==> r == a
    ensures a == "" && b != "" ==> r == b
    ensures a == "" && b == "" ==> r == c
  {
    if a != "" then a else if b != "" then b else c
  }

  /** The locale's entry, else the Swedish entry, else the key itself. */
  function GetTranslation(k: Key, locale: Locale): string {
    FirstNonEmpty(Table(locale, k), SvTable(k), KeyName(k))
  }

  /** `getTranslations(locale)`: the locale's whole table. */
  function GetTranslations(locale: Locale): (t: Key -> string)
    ensures forall k :: t(k) == Table(locale, k)
  {
    k => Table(locale, k)
  }

  /** The fallback chain: the locale's entry when it is non-empty, then the
      Swedish one, then the key's name; the result is never empty. */
  lemma TranslationFallback(k: Key, locale: Locale)
    ensures Table(locale, k) != "" ==> GetTranslation(k, locale) == Table(locale, k)
    ensures Table(locale, k) == "" && SvTable(k) != "" ==> GetTranslation(k, locale) == SvTable(k)
    ensures Table(locale, k) == "" && SvTable(k) == "" ==> GetTranslation(k, locale) == KeyName(k)
    ensures GetTranslation(k, locale) != ""
  {
  }

  /** Both tables define every key with a non-empty text, so the lookup
      always answers from the requested locale's table. */
  lemma TablesComplete(k: Key, locale: Locale)
    ensures SvTable(k) != "" && EnTable(k) != ""
    ensures GetTranslation(k, locale) == GetTranslations(locale)(k)
  {
  }
}
