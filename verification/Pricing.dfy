/** Usage rates by time of week: the second client of the calendar compiler. */
module Pricing {
  import opened Prelude
  import opened Text
  import opened Calendar
  import Decimal

  /** A configured price; the configuration format can also spell infinities and NaN. */
  datatype Amount = Finite(usd: real) | NotFinite

  datatype Rates = Rates(cacheHit: Amount, cacheMiss: Amount, output: Amount)

  datatype PriceWindow = PriceWindow(name: string, days: seq<nat>, start: string, end: string, pricing: Rates)

  datatype PricingSchedule = PricingSchedule(timezoneKnown: bool, windows: seq<PriceWindow>)

  datatype Model = Model(pricing: Option<Rates>, schedule: Option<PricingSchedule>) {
    function Windows(): seq<PriceWindow> { if schedule.Some? then schedule.value.windows else [] }

    /** Without a schedule the calendar is built for UTC, which is always known. */
    predicate TimezoneKnown() { schedule.Some? ==> schedule.value.timezoneKnown }
  }

  datatype TariffError = NoDefaultRates | BadRates | BadCalendar(error: CalendarError)

  datatype Tariff = Tariff(calendar: WeeklyCalendar, rates: seq<Option<Rates>>)

  predicate AmountIsValid(a: Amount) { a.Finite? && a.usd >= 0.0 }

  predicate RatesAreValid(r: Rates) {
    AmountIsValid(r.cacheHit) && AmountIsValid(r.cacheMiss) && AmountIsValid(r.output)
  }

  // ---------------------------------------------------------------- labels

  function Label(index: nat): string { "window-" + Decimal.Render(index) }

  function Labels(n: nat): (labels: seq<string>)
    ensures |labels| == n + 1
  {
    ["default"] + seq(n, i requires 0 <= i => Label(i))
  }

  lemma LabelsAreLayers(n: nat)
    ensures LayersAreValid(Labels(n))
  {
    var labels := Labels(n);
    forall i, j | 0 <= i < j < |labels|
      ensures labels[i] != labels[j]
    {
      assert labels[j] == Label(j - 1) && labels[j][0] == 'w';
      if i == 0 {
        assert labels[0][0] == 'd';
      } else if labels[i] == labels[j] {
        assert Label(i - 1)[7..] == Decimal.Render(i - 1) && Label(j - 1)[7..] == Decimal.Render(j - 1);
        Decimal.RenderInjective(i - 1, j - 1);
      }
    }
    forall i | 0 <= i < |labels|
      ensures !IsBlank(labels[i])
    {
      assert labels[i][0] == 'd' || labels[i][0] == 'w';
      assert !IsWhitespace(labels[i][0]);
    }
  }

  function Without(labels: seq<string>, k: nat): seq<string>
    requires k < |labels|
  {
    labels[..k] + labels[k + 1..]
  }

  /** The schedule of one price window: its own label in front of the others. */
  function ScheduleOf(labels: seq<string>, windows: seq<PriceWindow>, index: nat): Schedule
    requires index < |windows| && |labels| == |windows| + 1
  {
    var w := windows[index];
    Schedule(w.name, w.days, w.start, w.end, [labels[index + 1]] + Without(labels, index + 1))
  }

  function SchedulesOf(windows: seq<PriceWindow>): (schedules: seq<Schedule>)
    ensures |schedules| == |windows|
  {
    seq(|windows|, i requires 0 <= i < |windows| => ScheduleOf(Labels(|windows|), windows, i))
  }

  lemma OwnLabelFirst(labels: seq<string>, k: nat)
    requires k < |labels|
    ensures OrderIsValid([labels[k]] + Without(labels, k), labels)
  {
    var order := [labels[k]] + Without(labels, k);
    assert labels == labels[..k] + [labels[k]] + labels[k + 1..];
    assert forall name :: name in order <==> name in labels;
  }

  /** What a tariff's windows must satisfy beyond their rates. */
  ghost predicate WindowIsValid(w: PriceWindow) {
    !IsBlank(w.name) && DaysAreValid(w.days) && WallSeconds(w.start).Ok? && WallSeconds(w.end).Ok?
    && WallSeconds(w.start) != WallSeconds(w.end)
  }

  ghost predicate WindowsAreValid(windows: seq<PriceWindow>) {
    && (forall i :: 0 <= i < |windows| ==> WindowIsValid(windows[i]))
    && forall i, j :: 0 <= i < j < |windows| ==> windows[i].name != windows[j].name
  }

  lemma OneScheduleValid(windows: seq<PriceWindow>, i: nat)
    requires i < |windows|
    ensures ScheduleIsValid(SchedulesOf(windows)[i], Labels(|windows|)) <==> WindowIsValid(windows[i])
    ensures TimesAreValid(SchedulesOf(windows)[i])
            <==> WallSeconds(windows[i].start).Ok? && WallSeconds(windows[i].end).Ok?
                 && WallSeconds(windows[i].start) != WallSeconds(windows[i].end)
  {
    OwnLabelFirst(Labels(|windows|), i + 1);
    hide Labels, OrderIsValid, WallSeconds, DaysAreValid, IsBlank;
  }

  lemma SchedulesValid(windows: seq<PriceWindow>)
    ensures SchedulesAreValid(SchedulesOf(windows), Labels(|windows|)) <==> WindowsAreValid(windows)
    ensures WindowsAreValid(windows) ==> AllTimesValid(SchedulesOf(windows))
  {
    hide Labels, ScheduleIsValid, WindowIsValid, TimesAreValid;
    forall i: nat | i < |windows|
      ensures ScheduleIsValid(SchedulesOf(windows)[i], Labels(|windows|)) <==> WindowIsValid(windows[i])
      ensures WindowIsValid(windows[i]) ==> TimesAreValid(SchedulesOf(windows)[i])
      ensures SchedulesOf(windows)[i].name == windows[i].name
    {
      OneScheduleValid(windows, i);
      ValidWindowTimes(windows, i);
    }
  }

  lemma ValidWindowTimes(windows: seq<PriceWindow>, i: nat)
    requires i < |windows|
    ensures WindowIsValid(windows[i]) ==> TimesAreValid(SchedulesOf(windows)[i])
  {
    hide Labels, WallSeconds, DaysAreValid, IsBlank;
  }

  // ---------------------------------------------------------------- the tariff

  ghost predicate RatesAccepted(model: Model) {
    && (model.schedule.Some? ==> model.pricing.Some?)
    && (model.pricing.Some? ==> RatesAreValid(model.pricing.value))
    && forall i :: 0 <= i < |model.Windows()| ==> RatesAreValid(model.Windows()[i].pricing)
  }

  function AllRates(model: Model): seq<Option<Rates>> {
    [model.pricing] + seq(|model.Windows()|, i requires 0 <= i < |model.Windows()| => Some(model.Windows()[i].pricing))
  }

  /** The tariff that construction leads to. */
  ghost predicate Built(t: Tariff, model: Model) {
    t.rates == AllRates(model) && Compiled(t.calendar, Labels(|model.Windows()|), SchedulesOf(model.Windows()))
  }

  /** A tariff is accepted exactly when its rates are finite and non-negative, defaults back
    * any windows, and the windows themselves are well formed and never overlap. */
  method New(model: Model) returns (r: Result<Tariff, TariffError>)
    ensures r.Ok? <==> RatesAccepted(model) && model.TimezoneKnown() && WindowsAreValid(model.Windows())
                       && AllTimesValid(SchedulesOf(model.Windows())) && NoSecondTwice(SchedulesOf(model.Windows()))
    ensures r.Ok? ==> Built(r.value, model)
    ensures model.schedule.Some? && model.pricing.None? ==> r == Err(NoDefaultRates)
    ensures !(model.schedule.Some? && model.pricing.None?) && !RatesAccepted(model) ==> r == Err(BadRates)
    ensures RatesAccepted(model) && r.Err? ==> r.error.BadCalendar?
  {
    hide WindowsAreValid, NoSecondTwice, Compiled, AllTimesValid, SchedulesAreValid, LayersAreValid, RatesAreValid;
    var windows := model.Windows();
    var rates := [model.pricing];
    var labels := ["default"];
    if model.schedule.Some? {
      if model.pricing.None? { return Err(NoDefaultRates); }
      for index := 0 to |windows|
        invariant labels == Labels(index)
        invariant rates == [model.pricing] + seq(index, i requires 0 <= i < |windows| => Some(windows[i].pricing))
      {
        labels := labels + [Label(index)];
        rates := rates + [Some(windows[index].pricing)];
      }
    }
    assert labels == Labels(|windows|) && rates == AllRates(model);
    for k := 0 to |rates|
      invariant forall j :: 0 <= j < k && rates[j].Some? ==> RatesAreValid(rates[j].value)
    {
      if rates[k].Some? && !RatesAreValid(rates[k].value) {
        if k > 0 { assert rates[k] == Some(windows[k - 1].pricing); }
        return Err(BadRates);
      }
    }
    assert rates[0] == model.pricing;
    assert forall i :: 0 <= i < |windows| ==> rates[i + 1] == Some(windows[i].pricing);
    LabelsAreLayers(|windows|);
    SchedulesValid(windows);
    var calendar := Calendar.New(model.TimezoneKnown(), labels, SchedulesOf(windows));
    if calendar.Err? { return Err(BadCalendar(calendar.error)); }
    return Ok(Tariff(calendar.value, rates));
  }

  /** The active window's name and the rates in force at a local weekday and second. */
  function At(t: Tariff, weekday: nat, second: nat): (Option<string>, Option<Rates>)
    requires Total(t.calendar)
  {
    var selection := Calendar.At(t.calendar, weekday, second);
    (selection.activeSchedule,
     if selection.order != [] && selection.order[0] < |t.rates| then t.rates[selection.order[0]] else None)
  }

  lemma FirstIsOwn(windows: seq<PriceWindow>, i: nat)
    requires i < |windows| && OrderIsValid(SchedulesOf(windows)[i].order, Labels(|windows|))
    ensures SelectionOf(SchedulesOf(windows)[i], Labels(|windows|)).order[..1] == [i + 1]
  {
    var labels := Labels(|windows|);
    var s := SchedulesOf(windows)[i];
    LabelsAreLayers(|windows|);
    SelectionIsPermutation(s, labels);
    hide Labels;
    assert s.order[0] == labels[i + 1];
    var first := SelectionOf(s, labels).order[0];
    assert labels[first] == labels[i + 1];
    assert DistinctNames(labels);
  }

  lemma OwnWindow(t: Tariff, model: Model, weekday: nat, second: nat, i: nat)
    requires t.rates == AllRates(model) && i < |model.Windows()| && Total(t.calendar)
    requires OrderIsValid(SchedulesOf(model.Windows())[i].order, Labels(|model.Windows()|))
    requires Calendar.At(t.calendar, weekday, second)
             == SelectionOf(SchedulesOf(model.Windows())[i], Labels(|model.Windows()|))
    ensures At(t, weekday, second) == (Some(model.Windows()[i].name), Some(model.Windows()[i].pricing))
  {
    var windows := model.Windows();
    FirstIsOwn(windows, i);
    var selection := SelectionOf(SchedulesOf(windows)[i], Labels(|windows|));
    assert selection.activeSchedule == Some(windows[i].name);
    assert selection.order[0] == selection.order[..1][0] == i + 1;
  }

  /** During a window its own name and rates are in force... */
  lemma ActiveWindowCharges(t: Tariff, model: Model, weekday: nat, second: nat, i: nat)
    requires Built(t, model) && weekday < 7 && second < DAY
    requires i < |model.Windows()| && ActiveAt(SchedulesOf(model.Windows())[i], weekday * DAY + second)
    ensures At(t, weekday, second) == (Some(model.Windows()[i].name), Some(model.Windows()[i].pricing))
  {
    var schedules := SchedulesOf(model.Windows());
    assert OrderIsValid(schedules[i].order, Labels(|model.Windows()|));
    AtRefinesRule(t.calendar, Labels(|model.Windows()|), schedules, weekday, second);
    hide *;
    OwnWindow(t, model, weekday, second, i);
  }

  /** ... and outside every window the unnamed default rates are. */
  lemma NoWindowChargesDefault(t: Tariff, model: Model, weekday: nat, second: nat)
    requires Built(t, model) && weekday < 7 && second < DAY
    requires forall i: nat :: i < |model.Windows()| ==>
               !ActiveAt(SchedulesOf(model.Windows())[i], weekday * DAY + second)
    ensures At(t, weekday, second) == (None, model.pricing)
  {
    hide ActiveAt, NoSecondTwice, SelectionOf, Calendar.At, WindowsOf, ScheduleIsValid, TimesAreValid, DaysAreValid;
    AtRefinesRule(t.calendar, Labels(|model.Windows()|), SchedulesOf(model.Windows()), weekday, second);
  }
}
