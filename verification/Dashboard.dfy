/** The dashboard's sums over a fact table: the summary of a period, the trend buckets and the
    distributions, all of them SUM ... GROUP BY over the rows a WHERE clause keeps. */
module Dashboard {
  import opened Wrappers
  import opened Calendar

  /** A delivery date: the day and the time after its midnight, 0 throughout for a column of type
      date. */
  datatype When = When(day: Day, time: nat)

  datatype Label = Label(text: string)

  /** A fact row; NULLs are None. */
  datatype Fact = Fact(date: Option<When>, campaign: Option<int>, campaignLabel: Option<Label>,
                       workflow: Option<int>, workflowLabel: Option<Label>, channel: Option<int>,
                       total: Option<int>, success: Option<int>, failed: Option<int>, open: Option<int>, click: Option<int>)

  datatype Measure = Total | Success | Failed | Open | Click

  function Count(f: Fact, m: Measure): int {
    var v := match m
      case Total => f.total
      case Success => f.success
      case Failed => f.failed
      case Open => f.open
      case Click => f.click;
    if v.Some? then v.value else 0
  }

  /** COALESCE(SUM(measure), 0) over the rows a condition keeps: NULLs add nothing. */
  function Sum(facts: seq<Fact>, keep: Fact -> bool, m: Measure): int {
    if facts == [] then 0
    else (if keep(facts[0]) then Count(facts[0], m) else 0) + Sum(facts[1..], keep, m)
  }

  // ---------- GROUP BY ----------

  /** The keys of the groups a grouped query returns a row for. */
  ghost function Groups<K>(facts: seq<Fact>, keep: Fact -> bool, key: Fact -> K): set<K> {
    if facts == [] then {}
    else (if keep(facts[0]) then {key(facts[0])} else {}) + Groups(facts[1..], keep, key)
  }

  function InGroup<K(==)>(keep: Fact -> bool, key: Fact -> K, k: K): Fact -> bool {
    (f: Fact) => keep(f) && key(f) == k
  }

  ghost function InGroups<K>(keep: Fact -> bool, key: Fact -> K, groups: set<K>): Fact -> bool {
    (f: Fact) => keep(f) && key(f) in groups
  }

  /** The value of one group's row. */
  function GroupSum<K(==)>(facts: seq<Fact>, keep: Fact -> bool, key: Fact -> K, k: K, m: Measure): int {
    Sum(facts, InGroup(keep, key, k), m)
  }

  ghost function Any<K(!new)>(groups: set<K>): (k: K)
    requires groups != {}
    ensures k in groups
  {
    var k :| k in groups; k
  }

  /** The sum of the rows of a grouped query. */
  ghost function SumOfRows<K(!new)>(facts: seq<Fact>, keep: Fact -> bool, key: Fact -> K, groups: set<K>, m: Measure): int
    decreases |groups|
  {
    if groups == {} then 0
    else
      var k := Any(groups);
      GroupSum(facts, keep, key, k, m) + SumOfRows(facts, keep, key, groups - {k}, m)
  }

  /** Rows of the groups not in `groups` are the ones a condition with these groups removed keeps. */
  lemma {:induction false} RowsAddUp<K(!new)>(facts: seq<Fact>, keep: Fact -> bool, key: Fact -> K, groups: set<K>, m: Measure)
    ensures SumOfRows(facts, keep, key, groups, m) == Sum(facts, InGroups(keep, key, groups), m)
    decreases |groups|
  {
    if groups == {} {
      NothingKept(facts, InGroups(keep, key, groups), m);
    } else {
      var k := Any(groups);
      RowsAddUp(facts, keep, key, groups - {k}, m);
      SumSplits(facts, InGroups(keep, key, groups), InGroup(keep, key, k), InGroups(keep, key, groups - {k}), m);
    }
  }

  lemma {:induction false} NothingKept(facts: seq<Fact>, keep: Fact -> bool, m: Measure)
    requires forall f: Fact :: !keep(f)
    ensures Sum(facts, keep, m) == 0
  {
    if facts != [] {
      NothingKept(facts[1..], keep, m);
    }
  }

  lemma {:induction false} SumSplits(facts: seq<Fact>, whole: Fact -> bool, a: Fact -> bool, b: Fact -> bool, m: Measure)
    requires forall f :: f in facts ==> (whole(f) <==> a(f) || b(f)) && !(a(f) && b(f))
    ensures Sum(facts, whole, m) == Sum(facts, a, m) + Sum(facts, b, m)
  {
    if facts != [] {
      assert facts[0] in facts;
      SumSplits(facts[1..], whole, a, b, m);
    }
  }

  lemma {:induction false} SumAgrees(facts: seq<Fact>, a: Fact -> bool, b: Fact -> bool, m: Measure)
    requires forall f :: f in facts ==> (a(f) <==> b(f))
    ensures Sum(facts, a, m) == Sum(facts, b, m)
  {
    if facts != [] {
      assert facts[0] in facts;
      SumAgrees(facts[1..], a, b, m);
    }
  }

  lemma {:induction false} GroupsExactly<K(!new)>(facts: seq<Fact>, keep: Fact -> bool, key: Fact -> K, k: K)
    ensures k in Groups(facts, keep, key) <==> exists f :: f in facts && keep(f) && key(f) == k
  {
    if facts != [] {
      GroupsExactly(facts[1..], keep, key, k);
      if k in Groups(facts[1..], keep, key) {
        var f :| f in facts[1..] && keep(f) && key(f) == k;
        assert f in facts;
      } else if k in Groups(facts, keep, key) {
        assert facts[0] in facts;
      }
    }
  }

  /** However a query groups its rows, the group sums add up to the ungrouped sum. */
  lemma GroupingKeepsTotals<K(!new)>(facts: seq<Fact>, keep: Fact -> bool, key: Fact -> K, m: Measure)
    ensures SumOfRows(facts, keep, key, Groups(facts, keep, key), m) == Sum(facts, keep, m)
  {
    var groups := Groups(facts, keep, key);
    RowsAddUp(facts, keep, key, groups, m);
    forall f | f in facts ensures keep(f) ==> key(f) in groups {
      GroupsExactly(facts, keep, key, key(f));
    }
    SumAgrees(facts, keep, InGroups(keep, key, groups), m);
  }

  // ---------- get_dashboard_data ----------

  /** The request; an empty or missing list is no condition. */
  datatype Request = Request(range: Range, campaigns: seq<int>, workflows: seq<int>, channels: seq<int>)

  predicate Among(list: seq<int>, v: Option<int>) {
    list == [] || (v.Some? && v.value in list)
  }

  /** BETWEEN two dates; compared with a timestamp, a date is its midnight. */
  predicate Between(date: Option<When>, from: Day, to: Day) {
    date.Some? && from <= date.value.day && (date.value.day < to || date.value == When(to, 0))
  }

  predicate Where(q: Request, f: Fact) {
    Between(f.date, q.range.from, q.range.to) && Among(q.campaigns, f.campaign) && Among(q.workflows, f.workflow)
    && Among(q.channels, f.channel)
  }

  datatype GroupBy = GroupBy(campaign: bool, date: bool, workflow: bool, channel: bool)

  /** The columns a row is grouped by; a column that is not grouped by is None for every row. */
  datatype Key = Key(campaign: Option<(Option<int>, Option<Label>)>, date: Option<Option<When>>,
                     workflow: Option<(Option<int>, Option<Label>)>, channel: Option<Option<int>>)

  function KeyOf(g: GroupBy, f: Fact): Key {
    Key(if g.campaign then Some((f.campaign, f.campaignLabel)) else None, if g.date then Some(f.date) else None,
        if g.workflow then Some((f.workflow, f.workflowLabel)) else None, if g.channel then Some(f.channel) else None)
  }

  /** Two rows fall into one group exactly when they agree in every column asked for; a campaign and
      a workflow count with their label. */
  lemma OneGroupExactly(g: GroupBy, a: Fact, b: Fact)
    ensures KeyOf(g, a) == KeyOf(g, b) <==>
      && (g.campaign ==> a.campaign == b.campaign && a.campaignLabel == b.campaignLabel)
      && (g.date ==> a.date == b.date)
      && (g.workflow ==> a.workflow == b.workflow && a.workflowLabel == b.workflowLabel)
      && (g.channel ==> a.channel == b.channel)
  {
  }

  function Kept(q: Request): Fact -> bool {
    (f: Fact) => Where(q, f)
  }

  function Columns(g: GroupBy): Fact -> Key {
    (f: Fact) => KeyOf(g, f)
  }

  function Channel(): Fact -> Option<int> {
    (f: Fact) => f.channel
  }

  /** A KPI total of a request. */
  function Kpi(facts: seq<Fact>, q: Request, m: Measure): int {
    Sum(facts, Kept(q), m)
  }

  /** Whatever columns the aggregated rows are grouped by, and for the per-channel distribution,
      their values add up to the KPI total of the same request. */
  lemma RowsMatchKpi(facts: seq<Fact>, q: Request, g: GroupBy, m: Measure)
    ensures SumOfRows(facts, Kept(q), Columns(g), Groups(facts, Kept(q), Columns(g)), m) == Kpi(facts, q, m)
    ensures SumOfRows(facts, Kept(q), Channel(), Groups(facts, Kept(q), Channel()), m) == Kpi(facts, q, m)
  {
    GroupingKeepsTotals(facts, Kept(q), Columns(g), m);
    GroupingKeepsTotals(facts, Kept(q), Channel(), m);
  }

  function OrZero(v: Option<int>): int {
    if v.Some? then v.value else 0
  }

  /** The whole row counts when its date lies in the range and each list that is not empty names
      its value, and then each measure counts its own column. */
  lemma OneFactMore(facts: seq<Fact>, q: Request, f: Fact)
    ensures var counts :=
              && f.date.Some? && q.range.from <= f.date.value.day
              && (f.date.value.day < q.range.to || (f.date.value.day == q.range.to && f.date.value.time == 0))
              && (q.campaigns != [] ==> f.campaign.Some? && f.campaign.value in q.campaigns)
              && (q.workflows != [] ==> f.workflow.Some? && f.workflow.value in q.workflows)
              && (q.channels != [] ==> f.channel.Some? && f.channel.value in q.channels);
            && Kpi([f] + facts, q, Total) == (if counts then OrZero(f.total) else 0) + Kpi(facts, q, Total)
            && Kpi([f] + facts, q, Success) == (if counts then OrZero(f.success) else 0) + Kpi(facts, q, Success)
            && Kpi([f] + facts, q, Failed) == (if counts then OrZero(f.failed) else 0) + Kpi(facts, q, Failed)
            && Kpi([f] + facts, q, Open) == (if counts then OrZero(f.open) else 0) + Kpi(facts, q, Open)
            && Kpi([f] + facts, q, Click) == (if counts then OrZero(f.click) else 0) + Kpi(facts, q, Click)
  {
    assert ([f] + facts)[1..] == facts;
  }

  function Campaign(): Fact -> Option<int> {
    (f: Fact) => f.campaign
  }

  function Workflow(): Fact -> Option<int> {
    (f: Fact) => f.workflow
  }

  /** Asking for one campaign, workflow or channel counts what falls to it in the request that
      does not ask. */
  lemma FilterIsGroup(facts: seq<Fact>, q: Request, n: int, m: Measure)
    ensures Kpi(facts, q.(campaigns := [n]), m) == GroupSum(facts, Kept(q.(campaigns := [])), Campaign(), Some(n), m)
    ensures Kpi(facts, q.(workflows := [n]), m) == GroupSum(facts, Kept(q.(workflows := [])), Workflow(), Some(n), m)
    ensures Kpi(facts, q.(channels := [n]), m) == GroupSum(facts, Kept(q.(channels := [])), Channel(), Some(n), m)
  {
    SumAgrees(facts, Kept(q.(campaigns := [n])), InGroup(Kept(q.(campaigns := [])), Campaign(), Some(n)), m);
    SumAgrees(facts, Kept(q.(workflows := [n])), InGroup(Kept(q.(workflows := [])), Workflow(), Some(n)), m);
    SumAgrees(facts, Kept(q.(channels := [n])), InGroup(Kept(q.(channels := [])), Channel(), Some(n)), m);
  }

  // ---------- summary and trend ----------

  function RangeRequest(r: Range): Request {
    Request(r, [], [], [])
  }

  /** A total of _campaign_summary_result for the period of an anchor date. */
  function SummaryTotal(facts: seq<Fact>, anchor: Day, p: Period, m: Measure): Result<int> {
    match SummaryRange(anchor, p)
    case Err(e) => Err(e)
    case Ok(r) => Ok(Kpi(facts, RangeRequest(r), m))
  }

  /** WHERE delivery_date >= start AND delivery_date <= end of _trend_multi_execute. */
  function TrendWindow(anchor: Day, p: Period, days: nat, count: nat): Result<Range>
    requires days >= 1 && count >= 1
  {
    match FactInclusiveEnd(anchor, p)
    case Err(e) => Err(e)
    case Ok(end) =>
      match StartBack(end, p, (if p == Daily then days else count) - 1)
      case Err(e) => Err(e)
      case Ok(start) => Ok(Range(start, end))
  }

  predicate InWindow(w: Range, f: Fact) {
    Between(f.date, w.from, w.to)
  }

  function Windowed(w: Range): Fact -> bool {
    (f: Fact) => InWindow(w, f)
  }

  /** The bucket of a delivery date: itself for daily rows, else the start of its week or month. */
  function BucketOf(w: When, p: Period): When {
    if p == Daily then w else When(Bucket(w.day, p), 0)
  }

  /** The GROUP BY key of a trend row: the bucket, and the channel when asked for. */
  function TrendKey(p: Period, byChannel: bool, f: Fact): (Option<When>, Option<int>) {
    (if f.date.Some? then Some(BucketOf(f.date.value, p)) else None, if byChannel then f.channel else None)
  }

  function TrendKeys(p: Period, byChannel: bool): Fact -> (Option<When>, Option<int>) {
    (f: Fact) => TrendKey(p, byChannel, f)
  }

  /** The keys of the rows a trend labels with a day, for one channel when split by channel: in
      weekly and monthly trends one row, in daily trends one for each time of delivery that day. */
  ghost function Labelled(facts: seq<Fact>, w: Range, p: Period, byChannel: bool, day: Day, c: Option<int>): set<(Option<When>, Option<int>)> {
    set k | k in Groups(facts, Windowed(w), TrendKeys(p, byChannel)) && k.0.Some? && k.0.value.day == day && k.1 == c
  }

  /** The sum of these rows. */
  ghost function LabelTotal(facts: seq<Fact>, w: Range, p: Period, byChannel: bool, day: Day, c: Option<int>, m: Measure): int {
    SumOfRows(facts, Windowed(w), TrendKeys(p, byChannel), Labelled(facts, w, p, byChannel, day, c), m)
  }

  /** The facts such a row counts. */
  predicate LabelledFact(w: Range, p: Period, byChannel: bool, day: Day, c: Option<int>, f: Fact) {
    InWindow(w, f) && TrendKey(p, byChannel, f).0.value.day == day && TrendKey(p, byChannel, f).1 == c
  }

  function LabelledFacts(w: Range, p: Period, byChannel: bool, day: Day, c: Option<int>): Fact -> bool {
    (f: Fact) => LabelledFact(w, p, byChannel, day, c, f)
  }

  lemma LabelTotalIs(facts: seq<Fact>, w: Range, p: Period, byChannel: bool, day: Day, c: Option<int>, m: Measure)
    ensures LabelTotal(facts, w, p, byChannel, day, c, m) == Sum(facts, LabelledFacts(w, p, byChannel, day, c), m)
  {
    var keys, key := Labelled(facts, w, p, byChannel, day, c), TrendKeys(p, byChannel);
    RowsAddUp(facts, Windowed(w), key, keys, m);
    forall f | f in facts ensures InGroups(Windowed(w), key, keys)(f) <==> LabelledFact(w, p, byChannel, day, c, f) {
      GroupsExactly(facts, Windowed(w), key, key(f));
    }
    SumAgrees(facts, InGroups(Windowed(w), key, keys), LabelledFacts(w, p, byChannel, day, c), m);
  }

  /** Only daily trends of a timestamp column have several rows with one label. */
  lemma OneRowPerLabel(facts: seq<Fact>, w: Range, p: Period, byChannel: bool, day: Day, c: Option<int>, m: Measure)
    requires p != Daily || forall f :: f in facts && f.date.Some? ==> f.date.value.time == 0
    ensures LabelTotal(facts, w, p, byChannel, day, c, m) ==
            GroupSum(facts, Windowed(w), TrendKeys(p, byChannel), (Some(When(day, 0)), c), m)
  {
    LabelTotalIs(facts, w, p, byChannel, day, c, m);
    SumAgrees(facts, LabelledFacts(w, p, byChannel, day, c),
              InGroup(Windowed(w), TrendKeys(p, byChannel), (Some(When(day, 0)), c)), m);
  }

  lemma WindowEnds(anchor: Day, p: Period, days: nat, count: nat)
    requires days >= 1 && count >= 1 && TrendWindow(anchor, p, days, count).Ok?
    ensures var w := TrendWindow(anchor, p, days, count).value;
            && SummaryRange(w.to, p).Ok? && Last(w.to, p) == w.to
            && SummaryRange(w.to, p) == SummaryRange(anchor, p)
            && StartBack(w.to, p, (if p == Daily then days else count) - 1) == Ok(w.from)
  {
    var w := TrendWindow(anchor, p, days, count).value;
    RangeParts(anchor, p);
    RangeIsBucket(anchor, w.to, p);
    RangeParts(w.to, p);
  }

  /** A fact delivered after the midnight that opens the given day. */
  predicate After(day: Day, f: Fact) {
    f.date.Some? && f.date.value.day == day && f.date.value.time > 0
  }

  /** The facts a trend counts under a date's label and the summary of its period leaves out: those
      delivered in the course of the period's last day, unless the period is the last one. */
  predicate Late(x: Day, p: Period, w: Range, f: Fact)
    requires SummaryRange(x, p).Ok?
  {
    SummaryRange(x, p).value.to < w.to && After(SummaryRange(x, p).value.to, f)
  }

  /** For any date x in the window, the rows labelled with x's bucket count exactly the facts of
      x's summary range and the late ones. */
  lemma BucketIsSummary(anchor: Day, p: Period, days: nat, count: nat, x: Day, f: Fact, byChannel: bool)
    requires days >= 1 && count >= 1 && TrendWindow(anchor, p, days, count).Ok?
    requires Within(x, TrendWindow(anchor, p, days, count).value)
    ensures SummaryRange(x, p).Ok?
    ensures var w := TrendWindow(anchor, p, days, count).value;
            && (InWindow(w, f) && TrendKey(p, byChannel, f).0.value.day == Bucket(x, p) <==>
                 Where(RangeRequest(SummaryRange(x, p).value), f) || Late(x, p, w, f))
            && !(Where(RangeRequest(SummaryRange(x, p).value), f) && Late(x, p, w, f))
  {
    var w := TrendWindow(anchor, p, days, count).value;
    WindowEnds(anchor, p, days, count);
    WindowHoldsWholePeriods(w.to, p, (if p == Daily then days else count) - 1, x);
    RangeParts(x, p);
    if f.date.Some? {
      RangeIsBucket(x, f.date.value.day, p);
    }
  }

  function LateIn(x: Day, p: Period, w: Range): Fact -> bool
    requires SummaryRange(x, p).Ok?
  {
    (f: Fact) => Late(x, p, w, f)
  }

  lemma SummaryExists(anchor: Day, p: Period, days: nat, count: nat, x: Day)
    requires days >= 1 && count >= 1 && TrendWindow(anchor, p, days, count).Ok?
    requires Within(x, TrendWindow(anchor, p, days, count).value)
    ensures SummaryRange(x, p).Ok?
  {
    var w := TrendWindow(anchor, p, days, count).value;
    WindowEnds(anchor, p, days, count);
    WindowHoldsWholePeriods(w.to, p, (if p == Daily then days else count) - 1, x);
  }

  /** The trend rows labelled with x's bucket add up to the summary total of x and the late facts;
      so the two agree exactly when these add up to nothing. */
  lemma TrendAgreesWithSummary(facts: seq<Fact>, anchor: Day, p: Period, days: nat, count: nat, x: Day, m: Measure)
    requires days >= 1 && count >= 1 && TrendWindow(anchor, p, days, count).Ok?
    requires Within(x, TrendWindow(anchor, p, days, count).value)
    ensures SummaryRange(x, p).Ok? && SummaryTotal(facts, x, p, m).Ok?
    ensures var w := TrendWindow(anchor, p, days, count).value;
            LabelTotal(facts, w, p, false, Bucket(x, p), None, m) ==
            SummaryTotal(facts, x, p, m).value + Sum(facts, LateIn(x, p, w), m)
  {
    var w := TrendWindow(anchor, p, days, count).value;
    SummaryExists(anchor, p, days, count, x);
    var whole, kept := LabelledFacts(w, p, false, Bucket(x, p), None), Kept(RangeRequest(SummaryRange(x, p).value));
    forall f: Fact ensures (whole(f) <==> kept(f) || Late(x, p, w, f)) && !(kept(f) && Late(x, p, w, f)) {
      BucketIsSummary(anchor, p, days, count, x, f, false);
    }
    LabelTotalIs(facts, w, p, false, Bucket(x, p), None, m);
    SumSplits(facts, whole, kept, LateIn(x, p, w), m);
  }

  /** Split by channel, the rows of a label add up to that bucket's per-channel summary value and
      the late facts of the channel. */
  lemma ChannelRowsAgree(facts: seq<Fact>, anchor: Day, p: Period, days: nat, count: nat, x: Day, c: Option<int>, m: Measure)
    requires days >= 1 && count >= 1 && TrendWindow(anchor, p, days, count).Ok?
    requires Within(x, TrendWindow(anchor, p, days, count).value)
    ensures SummaryRange(x, p).Ok?
    ensures var w := TrendWindow(anchor, p, days, count).value;
            LabelTotal(facts, w, p, true, Bucket(x, p), c, m) ==
            GroupSum(facts, Kept(RangeRequest(SummaryRange(x, p).value)), Channel(), c, m) +
            GroupSum(facts, LateIn(x, p, w), Channel(), c, m)
  {
    var w := TrendWindow(anchor, p, days, count).value;
    SummaryExists(anchor, p, days, count, x);
    var whole := LabelledFacts(w, p, true, Bucket(x, p), c);
    var kept := InGroup(Kept(RangeRequest(SummaryRange(x, p).value)), Channel(), c);
    var late := InGroup(LateIn(x, p, w), Channel(), c);
    forall f: Fact ensures (whole(f) <==> kept(f) || late(f)) && !(kept(f) && late(f)) {
      BucketIsSummary(anchor, p, days, count, x, f, true);
    }
    LabelTotalIs(facts, w, p, true, Bucket(x, p), c, m);
    SumSplits(facts, whole, kept, late, m);
  }

  /** A column of type date has no late facts. */
  lemma DatesAreNeverLate(facts: seq<Fact>, x: Day, p: Period, w: Range, m: Measure)
    requires SummaryRange(x, p).Ok?
    requires forall f :: f in facts && f.date.Some? ==> f.date.value.time == 0
    ensures Sum(facts, LateIn(x, p, w), m) == 0
  {
    SumAgrees(facts, LateIn(x, p, w), Nothing(), m);
    NothingKept(facts, Nothing(), m);
  }

  function Nothing(): Fact -> bool {
    (f: Fact) => false
  }

  /** The sum of the summary totals of a range and the k ranges before it. */
  function SummaryTotals(facts: seq<Fact>, r: Range, p: Period, k: nat, m: Measure): int
    decreases k
  {
    Kpi(facts, RangeRequest(r), m) +
    (if k == 0 || PreviousRange(r, p).Err? then 0 else SummaryTotals(facts, PreviousRange(r, p).value, p, k - 1, m))
  }

  function AfterOn(day: Day): Fact -> bool {
    (f: Fact) => After(day, f)
  }

  /** The sum of what was delivered in the course of the last days of the k periods before d's. */
  function LateTotals(facts: seq<Fact>, d: Day, p: Period, k: nat, m: Measure): int
    decreases k
  {
    if k == 0 || Bucket(d, p) == 1 then 0
    else Sum(facts, AfterOn(Bucket(d, p) - 1), m) + LateTotals(facts, Bucket(d, p) - 1, p, k - 1, m)
  }

  lemma TotalsStep(facts: seq<Fact>, d: Day, p: Period, k: nat, m: Measure)
    requires SummaryRange(d, p).Ok? && Bucket(d, p) > 1 && k > 0
    requires SummaryRange(Bucket(d, p) - 1, p).Ok?
    requires PreviousRange(SummaryRange(d, p).value, p) == SummaryRange(Bucket(d, p) - 1, p)
    ensures SummaryTotals(facts, SummaryRange(d, p).value, p, k, m) ==
            Kpi(facts, RangeRequest(SummaryRange(d, p).value), m) +
            SummaryTotals(facts, SummaryRange(Bucket(d, p) - 1, p).value, p, k - 1, m)
  {
  }

  lemma LateStep(facts: seq<Fact>, d: Day, p: Period, k: nat, m: Measure)
    requires Bucket(d, p) > 1 && k > 0
    ensures LateTotals(facts, d, p, k, m) ==
            Sum(facts, AfterOn(Bucket(d, p) - 1), m) + LateTotals(facts, Bucket(d, p) - 1, p, k - 1, m)
  {
  }

  /** The summary totals of a period and the k periods before it, with what was delivered in the
      course of the last days in between, add up to the total over their common range. */
  lemma {:induction false} WindowTotal(facts: seq<Fact>, d: Day, p: Period, k: nat, m: Measure)
    requires SummaryRange(d, p).Ok? && StartBack(d, p, k).Ok?
    ensures SummaryTotals(facts, SummaryRange(d, p).value, p, k, m) + LateTotals(facts, d, p, k, m) ==
            Kpi(facts, RangeRequest(Range(StartBack(d, p, k).value, SummaryRange(d, p).value.to)), m)
    decreases k
  {
    if k == 0 {
      BucketOpensRange(d, p);
    } else {
      StepBack(d, p);
      TotalsStep(facts, d, p, k, m);
      LateStep(facts, d, p, k, m);
      WindowTotal(facts, Bucket(d, p) - 1, p, k - 1, m);
      JoinPeriods(facts, d, p, k, m);
    }
  }

  lemma JoinPeriods(facts: seq<Fact>, d: Day, p: Period, k: nat, m: Measure)
    requires SummaryRange(d, p).Ok? && k > 0 && StartBack(d, p, k).Ok?
    requires SummaryRange(Bucket(d, p) - 1, p).Ok? && Last(Bucket(d, p) - 1, p) == Bucket(d, p) - 1
    ensures SummaryRange(Bucket(d, p) - 1, p).value.to == Bucket(d, p) - 1
    ensures Kpi(facts, RangeRequest(Range(StartBack(d, p, k).value, SummaryRange(d, p).value.to)), m) ==
            Kpi(facts, RangeRequest(Range(StartBack(d, p, k).value, Bucket(d, p) - 1)), m) +
            Sum(facts, AfterOn(Bucket(d, p) - 1), m) + Kpi(facts, RangeRequest(SummaryRange(d, p).value), m)
  {
    var before := Bucket(d, p) - 1;
    EndOfBefore(d, p);
    StartBelow(before, p, k - 1);
    BucketOpensRange(d, p);
    JoinRanges(facts, StartBack(d, p, k).value, before, SummaryRange(d, p).value.to, m);
  }

  lemma EndOfBefore(d: Day, p: Period)
    requires SummaryRange(d, p).Ok? && Bucket(d, p) > 1
    requires SummaryRange(Bucket(d, p) - 1, p).Ok? && Last(Bucket(d, p) - 1, p) == Bucket(d, p) - 1
    ensures SummaryRange(Bucket(d, p) - 1, p).value.to == Bucket(d, p) - 1 && Bucket(d, p) <= SummaryRange(d, p).value.to
    ensures Bucket(Bucket(d, p) - 1, p) <= Bucket(d, p) - 1
  {
    RangeParts(d, p);
    RangeParts(Bucket(d, p) - 1, p);
  }

  lemma JoinRanges(facts: seq<Fact>, from: Day, middle: Day, to: Day, m: Measure)
    requires from <= middle < to
    ensures Kpi(facts, RangeRequest(Range(from, to)), m) ==
            Kpi(facts, RangeRequest(Range(from, middle)), m) + Sum(facts, AfterOn(middle), m) +
            Kpi(facts, RangeRequest(Range(middle + 1, to)), m)
  {
    var rest := (f: Fact) => After(middle, f) || Where(RangeRequest(Range(middle + 1, to)), f);
    forall f: Fact
      ensures Where(RangeRequest(Range(from, to)), f) <==> Where(RangeRequest(Range(from, middle)), f) || rest(f)
      ensures !(Where(RangeRequest(Range(from, middle)), f) && rest(f))
    {
      assert rest(f) <==> After(middle, f) || Where(RangeRequest(Range(middle + 1, to)), f);
    }
    SumSplits(facts, Kept(RangeRequest(Range(from, to))), Kept(RangeRequest(Range(from, middle))), rest, m);
    SumSplits(facts, rest, AfterOn(middle), Kept(RangeRequest(Range(middle + 1, to))), m);
  }

  /** The trend rows, split by channel or not, add up to the window total, and this is the sum
      of the summary totals of the window's periods and of what was delivered in the course of
      the last days of all but the last period. */
  lemma TrendAddsUp(facts: seq<Fact>, anchor: Day, p: Period, days: nat, count: nat, byChannel: bool, m: Measure)
    requires days >= 1 && count >= 1 && TrendWindow(anchor, p, days, count).Ok?
    ensures SummaryRange(anchor, p).Ok?
    ensures var w := TrendWindow(anchor, p, days, count).value;
            var k := (if p == Daily then days else count) - 1;
            var rows := Groups(facts, Windowed(w), TrendKeys(p, byChannel));
            SumOfRows(facts, Windowed(w), TrendKeys(p, byChannel), rows, m) ==
            SummaryTotals(facts, SummaryRange(anchor, p).value, p, k, m) + LateTotals(facts, w.to, p, k, m)
  {
    var w := TrendWindow(anchor, p, days, count).value;
    WindowEnds(anchor, p, days, count);
    GroupingKeepsTotals(facts, Windowed(w), TrendKeys(p, byChannel), m);
    WindowTotal(facts, w.to, p, (if p == Daily then days else count) - 1, m);
    RangeParts(anchor, p);
    SumAgrees(facts, Windowed(w), Kept(RangeRequest(w)), m);
  }

  /** For a column of type date the trend rows add up to the summary totals. */
  lemma {:induction false} DatesAddUp(facts: seq<Fact>, d: Day, p: Period, k: nat, m: Measure)
    requires forall f :: f in facts && f.date.Some? ==> f.date.value.time == 0
    ensures LateTotals(facts, d, p, k, m) == 0
    decreases k
  {
    if k > 0 && Bucket(d, p) > 1 {
      SumAgrees(facts, AfterOn(Bucket(d, p) - 1), Nothing(), m);
      NothingKept(facts, Nothing(), m);
      DatesAddUp(facts, Bucket(d, p) - 1, p, k - 1, m);
    }
  }
}
