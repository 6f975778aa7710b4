/** What the transcription logs cost: each log priced by the tariff of its day, summed over date ranges
    and clients. Times are seconds since day 0, prices and durations exact reals. */
module Costs {
  import opened Words
  import opened Pricing

  datatype Log = Log(client: string, createdAt: int, audioSeconds: real, speechSeconds: real) {
    /** created_at::date */
    function Day(): int { createdAt / DAY }
  }

  const DAY := 86400

  datatype Side = Audio | Speech

  function Seconds(l: Log, side: Side): real { if side == Audio then l.audioSeconds else l.speechSeconds }

  function RateOf(rates: Option<Rates>, side: Side): Option<real> {
    if rates == None then None else if side == Audio then rates.value.audio else rates.value.speech
  }

  /** The lateral join keeps every log, with the price of the row active on its day or with none. */
  function Joined(rows: seq<Row>, side: Side): Log -> Option<real> {
    (l: Log) => RateOf(RatesAt(rows, l.client, l.Day()), side)
  }

  /** The same prices by the step function. */
  ghost function Stepped(t: Tariffs, side: Side): Log -> Option<real> {
    (l: Log) => RateOf(StepRates(t, l.client, l.Day()), side)
  }

  /** The WHERE clause: a client and the first and last day, each of them optional. */
  datatype Filter = Filter(client: Option<string>, from: Option<int>, to: Option<int>) {
    predicate Keeps(l: Log) {
      && (client.Some? ==> l.client == client.value)
      && (from.Some? ==> l.createdAt >= from.value * DAY)
      && (to.Some? ==> l.createdAt < (to.value + 1) * DAY)
    }
  }

  // ----- the aggregates of one query

  datatype Aggregates = Aggregates(count: nat, seconds: real, total: real, rates: set<real>, min: Option<real>)

  const ZERO := Aggregates(0, 0.0, 0.0, {}, None)

  function Lesser(a: Option<real>, b: Option<real>): Option<real> {
    if a.None? then b else if b.None? || a.value <= b.value then a else b
  }

  function Plus(a: Aggregates, b: Aggregates): Aggregates {
    Aggregates(a.count + b.count, a.seconds + b.seconds, a.total + b.total, a.rates + b.rates, Lesser(a.min, b.min))
  }

  /** One log; a log without a price has no part in the total nor in the rates. */
  function One(seconds: real, rate: Option<real>): Aggregates {
    if rate.None? then Aggregates(1, seconds, 0.0, {}, None)
    else Aggregates(1, seconds, seconds / 60.0 * rate.value, {rate.value}, Some(rate.value))
  }

  function Aggregate(logs: seq<Log>, keep: Log -> bool, price: Log -> Option<real>, side: Side): Aggregates {
    if logs == [] then ZERO
    else
      var init, l := Aggregate(logs[..|logs| - 1], keep, price, side), logs[|logs| - 1];
      if keep(l) then Plus(init, One(Seconds(l, side), price(l))) else init
  }

  function Where(f: Filter): Log -> bool { (l: Log) => f.Keeps(l) }

  /** The aggregates of get_analytics_summary. */
  function Query(logs: seq<Log>, rows: seq<Row>, f: Filter, side: Side): Aggregates {
    Aggregate(logs, Where(f), Joined(rows, side), side)
  }

  lemma PlusSwap(a: Aggregates, b: Aggregates, c: Aggregates)
    ensures Plus(Plus(a, b), c) == Plus(Plus(a, c), b) == Plus(a, Plus(b, c)) == Plus(b, Plus(a, c))
    ensures Plus(a, ZERO) == a == Plus(ZERO, a)
  {
  }

  // ----- conservation

  /** Logs split in two disjoint selections: the aggregates of the whole are those of the two put together. */
  lemma {:induction false} SplitSelection(logs: seq<Log>, p: Log -> bool, q: Log -> bool, whole: Log -> bool,
      price: Log -> Option<real>, side: Side)
    requires forall l :: l in logs ==> !(p(l) && q(l)) && (whole(l) <==> p(l) || q(l))
    ensures Aggregate(logs, whole, price, side) ==
      Plus(Aggregate(logs, p, price, side), Aggregate(logs, q, price, side))
  {
    if logs == [] {
      PlusSwap(ZERO, ZERO, ZERO);
    } else {
      hide Plus, One, Seconds;
      var init, l := logs[..|logs| - 1], logs[|logs| - 1];
      SplitSelection(init, p, q, whole, price, side);
      PlusSwap(Aggregate(init, p, price, side), Aggregate(init, q, price, side), One(Seconds(l, side), price(l)));
    }
  }

  lemma {:induction false} SamePrices(logs: seq<Log>, keep: Log -> bool, price: Log -> Option<real>,
      other: Log -> Option<real>, side: Side)
    requires forall l :: l in logs && keep(l) ==> price(l) == other(l)
    ensures Aggregate(logs, keep, price, side) == Aggregate(logs, keep, other, side)
  {
    if logs != [] {
      SamePrices(logs[..|logs| - 1], keep, price, other, side);
    }
  }

  /** A date range and the one that begins the day after it add up to the joined range. */
  lemma AdjacentRanges(logs: seq<Log>, rows: seq<Row>, a: Filter, b: Filter, side: Side)
    requires a.client == b.client && a.to.Some? && b.from == Some(a.to.value + 1)
    requires a.from.Some? ==> a.from.value <= b.from.value
    requires b.to.Some? ==> a.to.value <= b.to.value
    ensures Query(logs, rows, Filter(a.client, a.from, b.to), side) ==
      Plus(Query(logs, rows, a, side), Query(logs, rows, b, side))
  {
    SplitSelection(logs, Where(a), Where(b), Where(Filter(a.client, a.from, b.to)), Joined(rows, side), side);
  }

  // ----- the report by client

  /** GROUP BY client: the clients that have logs in the range, each with its aggregates. */
  function ByClient(logs: seq<Log>, rows: seq<Row>, clients: seq<string>, from: int, to: int, side: Side)
    : seq<(string, Aggregates)>
  {
    if clients == [] then []
    else
      var c := clients[|clients| - 1];
      var a := Query(logs, rows, Filter(Some(c), Some(from), Some(to)), side);
      ByClient(logs, rows, clients[..|clients| - 1], from, to, side) + (if a.count == 0 then [] else [(c, a)])
  }

  function Sum(groups: seq<(string, Aggregates)>): Aggregates {
    if groups == [] then ZERO else Plus(Sum(groups[..|groups| - 1]), groups[|groups| - 1].1)
  }

  lemma NoLogsNothing(logs: seq<Log>, keep: Log -> bool, price: Log -> Option<real>, side: Side)
    requires Aggregate(logs, keep, price, side).count == 0
    ensures Aggregate(logs, keep, price, side) == ZERO
  {
  }

  lemma {:induction false} ClientsSum(logs: seq<Log>, rows: seq<Row>, clients: seq<string>, from: int, to: int,
      side: Side)
    requires Distinct(clients)
    ensures Sum(ByClient(logs, rows, clients, from, to, side)) ==
      Aggregate(logs, OfClients(clients, from, to), Joined(rows, side), side)
  {
    hide Plus, Aggregate;
    var price := Joined(rows, side);
    if clients == [] {
      NothingKept(logs, OfClients(clients, from, to), price, side);
    } else {
      var init, c := clients[..|clients| - 1], clients[|clients| - 1];
      var f := Filter(Some(c), Some(from), Some(to));
      var groups := ByClient(logs, rows, init, from, to, side);
      ClientsSum(logs, rows, init, from, to, side);
      assert clients == init + [c];
      SplitSelection(logs, OfClients(init, from, to), Where(f), OfClients(clients, from, to), price, side);
      var a := Query(logs, rows, f, side);
      if a.count == 0 {
        NoLogsNothing(logs, Where(f), price, side);
        PlusSwap(Sum(groups), ZERO, ZERO);
        assert groups + [] == groups;
      } else {
        assert (groups + [(c, a)])[..|groups|] == groups;
      }
    }
  }

  function OfClients(clients: seq<string>, from: int, to: int): Log -> bool {
    (l: Log) => l.client in clients && Filter(None, Some(from), Some(to)).Keeps(l)
  }

  lemma {:induction false} NothingKept(logs: seq<Log>, keep: Log -> bool, price: Log -> Option<real>, side: Side)
    requires forall l :: l in logs ==> !keep(l)
    ensures Aggregate(logs, keep, price, side) == ZERO
  {
    if logs != [] { NothingKept(logs[..|logs| - 1], keep, price, side); }
  }

  lemma {:induction false} SameSelection(logs: seq<Log>, p: Log -> bool, q: Log -> bool, price: Log -> Option<real>,
      side: Side)
    requires forall l :: l in logs ==> (p(l) <==> q(l))
    ensures Aggregate(logs, p, price, side) == Aggregate(logs, q, price, side)
  {
    if logs != [] { SameSelection(logs[..|logs| - 1], p, q, price, side); }
  }

  /** The admin's report by client sums to the summary of all clients for the same dates. */
  lemma ReportSumsToSummary(logs: seq<Log>, rows: seq<Row>, clients: seq<string>, from: int, to: int, side: Side)
    requires Distinct(clients)
    requires forall l :: l in logs ==> l.client in clients
    ensures Sum(ByClient(logs, rows, clients, from, to, side)) ==
      Query(logs, rows, Filter(None, Some(from), Some(to)), side)
  {
    ClientsSum(logs, rows, clients, from, to, side);
    var all := Filter(None, Some(from), Some(to));
    SameSelection(logs, OfClients(clients, from, to), Where(all), Joined(rows, side), side);
  }

  // ----- the tariffs behind the totals

  /** After any tariff requests, every total prices each log by the step function at its day. */
  lemma CostIsStep(clients: set<string>, qs: seq<Request>, logs: seq<Log>, f: Filter, side: Side)
    ensures Query(logs, RunAll(clients, qs), f, side) ==
      Aggregate(logs, Where(f), Stepped(AcceptAll(clients, qs), side), side)
  {
    var price, step := Joined(RunAll(clients, qs), side), Stepped(AcceptAll(clients, qs), side);
    forall l: Log
      ensures price(l) == step(l)
    {
      RunIsStep(clients, qs, l.client, l.Day());
    }
    SamePrices(logs, Where(f), price, step, side);
  }

  /** The order in which the tariffs were entered does not change a bill. */
  lemma CostIsOrderFree(clients: set<string>, a: seq<Request>, b: seq<Request>, logs: seq<Log>, f: Filter, side: Side)
    requires DifferentKeys(a) && DifferentKeys(b)
    requires forall q :: q in a <==> q in b
    ensures Query(logs, RunAll(clients, a), f, side) == Query(logs, RunAll(clients, b), f, side)
  {
    CostIsStep(clients, a, logs, f, side);
    CostIsStep(clients, b, logs, f, side);
    SameRequestsSameTariffs(clients, a, b);
  }

  /** A new tariff leaves the bills of other clients and of earlier days as they were. */
  lemma EarlierBillsStand(clients: set<string>, qs: seq<Request>, q: Request, logs: seq<Log>, f: Filter, side: Side)
    requires (f.client.Some? && f.client.value != q.client) || (f.to.Some? && f.to.value < q.From())
    ensures Query(logs, RunAll(clients, qs + [q]), f, side) == Query(logs, RunAll(clients, qs), f, side)
  {
    var rows, t := RunAll(clients, qs), AcceptAll(clients, qs);
    RunConsistent(clients, qs);
    RunHolds(clients, qs);
    assert (qs + [q])[..|qs|] == qs;
    var rows' := RunAll(clients, qs + [q]);
    assert rows' == Create(rows, clients, q).0;
    var price, price' := Joined(rows, side), Joined(rows', side);
    forall l | l in logs && Where(f)(l)
      ensures price'(l) == price(l)
    {
      OldRateStands(rows, t, clients, q, l, f);
    }
    SamePrices(logs, Where(f), price', price, side);
  }

  lemma OldRateStands(rows: seq<Row>, t: Tariffs, clients: set<string>, q: Request, l: Log, f: Filter)
    requires Consistent(rows) && Holds(rows, t) && f.Keeps(l)
    requires (f.client.Some? && f.client.value != q.client) || (f.to.Some? && f.to.value < q.From())
    ensures RatesAt(Create(rows, clients, q).0, l.client, l.Day()) == RatesAt(rows, l.client, l.Day())
  {
    if Create(rows, clients, q).1.Created? {
      CreateEffect(rows, t, clients, q, l.client, l.Day());
    }
  }

  // ----- the displayed rate

  function DisplayRate(a: Aggregates): Option<real> {
    if |a.rates| == 1 then a.min else None
  }

  datatype PriceOption = Absent | TotalOnly(total: real) | Priced(rate: real, total: real)

  function PricingOption(a: Aggregates): PriceOption {
    var rate := DisplayRate(a);
    if rate.Some? then Priced(rate.value, a.total)
    else if a.total > 0.0 then TotalOnly(a.total)
    else Absent
  }

  datatype Cost = Cost(audioMinutes: real, speechMinutes: real, byAudio: PriceOption, bySpeech: PriceOption)

  function BuildCost(audio: Aggregates, speech: Aggregates): Cost {
    Cost(audio.seconds / 60.0, speech.seconds / 60.0, PricingOption(audio), PricingOption(speech))
  }

  /** rates are the prices of the selected logs, and min is the least of them. */
  lemma {:induction false} RatesAreThePrices(logs: seq<Log>, keep: Log -> bool, price: Log -> Option<real>, side: Side)
    ensures var a := Aggregate(logs, keep, price, side);
      forall r :: r in a.rates <==> exists l :: l in logs && keep(l) && price(l) == Some(r)
    ensures var a := Aggregate(logs, keep, price, side);
      if a.min.None? then a.rates == {} else a.min.value in a.rates && forall r :: r in a.rates ==> a.min.value <= r
  {
    if logs != [] {
      var init, last := logs[..|logs| - 1], logs[|logs| - 1];
      RatesAreThePrices(init, keep, price, side);
      var a, b := Aggregate(init, keep, price, side), Aggregate(logs, keep, price, side);
      assert logs == init + [last];
      forall r
        ensures r in b.rates <==> exists l :: l in logs && keep(l) && price(l) == Some(r)
      {
        assert r in b.rates <==> r in a.rates || (keep(last) && price(last) == Some(r));
        if exists l :: l in logs && keep(l) && price(l) == Some(r) {
          var l :| l in logs && keep(l) && price(l) == Some(r);
          assert l in init || l == last;
        }
      }
    }
  }

  /** The selected logs that have a price. */
  function WithPrice(keep: Log -> bool, price: Log -> Option<real>): Log -> bool {
    (l: Log) => keep(l) && price(l).Some?
  }

  function WithoutPrice(keep: Log -> bool, price: Log -> Option<real>): Log -> bool {
    (l: Log) => keep(l) && price(l).None?
  }

  lemma Distribute(a: real, b: real, r: real)
    ensures (a + b) / 60.0 * r == a / 60.0 * r + b / 60.0 * r
  {
    assert (a + b) / 60.0 == a / 60.0 + b / 60.0;
  }

  lemma {:induction false} OneRateTotal(logs: seq<Log>, keep: Log -> bool, price: Log -> Option<real>, side: Side,
      r: real)
    requires forall l :: l in logs && keep(l) && price(l).Some? ==> price(l).value == r
    ensures Aggregate(logs, keep, price, side).total ==
      Aggregate(logs, WithPrice(keep, price), price, side).seconds / 60.0 * r
  {
    if logs != [] {
      var init, l := logs[..|logs| - 1], logs[|logs| - 1];
      OneRateTotal(init, keep, price, side, r);
      Distribute(Aggregate(init, WithPrice(keep, price), price, side).seconds, Seconds(l, side), r);
    }
  }

  /** A displayed rate explains its total: it is the rate times the priced minutes. It is the rate times all
      the displayed minutes exactly when the minutes without a price, or the rate, come to nothing. */
  lemma DisplayedRate(logs: seq<Log>, keep: Log -> bool, price: Log -> Option<real>, side: Side)
    requires DisplayRate(Aggregate(logs, keep, price, side)).Some?
    ensures var a := Aggregate(logs, keep, price, side);
      var r := DisplayRate(a).value;
      && (forall l :: l in logs && keep(l) && price(l).Some? ==> price(l).value == r)
      && a.total == Aggregate(logs, WithPrice(keep, price), price, side).seconds / 60.0 * r
    ensures var a := Aggregate(logs, keep, price, side);
      var r := DisplayRate(a).value;
      var without := Aggregate(logs, WithoutPrice(keep, price), price, side).seconds;
      a.total == a.seconds / 60.0 * r <==> without == 0.0 || r == 0.0
  {
    hide Aggregate;
    var a := Aggregate(logs, keep, price, side);
    var r := DisplayRate(a).value;
    RatesAreThePrices(logs, keep, price, side);
    OnlyMember(a.rates, r);
    forall l | l in logs && keep(l) && price(l).Some?
      ensures price(l).value == r
    {
      PriceIsRate(logs, keep, price, side, l);
    }
    OneRateTotal(logs, keep, price, side, r);
    SplitSelection(logs, WithPrice(keep, price), WithoutPrice(keep, price), keep, price, side);
    var with, without := Aggregate(logs, WithPrice(keep, price), price, side).seconds,
      Aggregate(logs, WithoutPrice(keep, price), price, side).seconds;
    Distribute(with, without, r);
    ZeroProduct(without, r);
  }

  lemma ZeroProduct(s: real, r: real)
    ensures s / 60.0 * r == 0.0 <==> s == 0.0 || r == 0.0
  {
  }

  lemma OnlyMember<T>(s: set<T>, r: T)
    requires |s| == 1 && r in s
    ensures forall x :: x in s ==> x == r
  {
    assert s == {r} + (s - {r});
    assert s - {r} == {};
  }

  lemma AnotherMember<T>(s: set<T>, r: T) returns (x: T)
    requires |s| != 1 && r in s
    ensures x in s && x != r
  {
    assert s != {r};
    x :| x in s && x != r;
  }

  lemma PriceIsRate(logs: seq<Log>, keep: Log -> bool, price: Log -> Option<real>, side: Side, l: Log)
    requires l in logs && keep(l) && price(l).Some?
    ensures price(l).value in Aggregate(logs, keep, price, side).rates
  {
    hide Aggregate;
    RatesAreThePrices(logs, keep, price, side);
    var r := price(l).value;
    assert price(l) == Some(r);
    assert exists m :: m in logs && keep(m) && price(m) == Some(r);
    assert r in Aggregate(logs, keep, price, side).rates;
  }

  lemma RateIsPrice(logs: seq<Log>, keep: Log -> bool, price: Log -> Option<real>, side: Side, r: real) returns (l: Log)
    requires r in Aggregate(logs, keep, price, side).rates
    ensures l in logs && keep(l) && price(l) == Some(r)
  {
    hide Aggregate;
    RatesAreThePrices(logs, keep, price, side);
    var a := Aggregate(logs, keep, price, side);
    assert r in a.rates;
    l :| l in logs && keep(l) && price(l) == Some(r);
  }

  ghost predicate TwoPrices(logs: seq<Log>, keep: Log -> bool, price: Log -> Option<real>) {
    exists l, m ::
      && l in logs && keep(l) && price(l).Some?
      && m in logs && keep(m) && price(m).Some?
      && price(l) != price(m)
  }

  /** No rate is displayed when the selected logs were priced at two different rates, or at none. */
  lemma NoDisplayedRate(logs: seq<Log>, keep: Log -> bool, price: Log -> Option<real>, side: Side)
    ensures DisplayRate(Aggregate(logs, keep, price, side)).None? <==>
      || (forall l :: l in logs && keep(l) ==> price(l).None?)
      || TwoPrices(logs, keep, price)
  {
    hide Aggregate;
    RatesAreThePrices(logs, keep, price, side);
    var a := Aggregate(logs, keep, price, side);
    if |a.rates| == 1 {
      DisplayedRate(logs, keep, price, side);
      assert a.min.value in a.rates;
    } else if a.rates != {} {
      var r := a.min.value;
      var x := AnotherMember(a.rates, r);
      var l := RateIsPrice(logs, keep, price, side, r);
      var m := RateIsPrice(logs, keep, price, side, x);
    } else {
      forall l | l in logs && keep(l)
        ensures price(l).None?
      {
        if price(l).Some? { PriceIsRate(logs, keep, price, side, l); }
      }
    }
  }

  /** With prices and durations that are not negative no charge is left out: an absent option is a zero total. */
  lemma {:induction false} AbsentIsFree(logs: seq<Log>, keep: Log -> bool, price: Log -> Option<real>, side: Side)
    requires forall l :: l in logs && keep(l) && price(l).Some? ==> price(l).value >= 0.0 && Seconds(l, side) >= 0.0
    ensures Aggregate(logs, keep, price, side).total >= 0.0
    ensures PricingOption(Aggregate(logs, keep, price, side)).Absent? ==>
      Aggregate(logs, keep, price, side).total == 0.0
  {
    if logs != [] {
      AbsentIsFree(logs[..|logs| - 1], keep, price, side);
      var l := logs[|logs| - 1];
      if keep(l) && price(l).Some? { Nonnegative(Seconds(l, side), price(l).value); }
    }
  }

  lemma Nonnegative(s: real, r: real)
    requires s >= 0.0 && r >= 0.0
    ensures s / 60.0 * r >= 0.0
  {
  }

  /** A minute before the tariff begins and a minute after: the displayed rate is 2 and the total 2, for two minutes. */
  lemma UnpricedMinuteShown(client: string)
    ensures var rows := RunAll({client}, [Request(client, Rates(Some(2.0), None), Some(10), 0)]);
      var logs := [Log(client, 0, 60.0, 60.0), Log(client, 10 * DAY, 60.0, 60.0)];
      var a := Query(logs, rows, Filter(Some(client), None, None), Audio);
      PricingOption(a) == Priced(2.0, 2.0) && a.seconds / 60.0 == 2.0
  {
    var rates := Rates(Some(2.0), None);
    var rows := [Row(client, rates, 10, None)];
    OneTariff(client, rates);
    hide RunAll;
    var before, after := Log(client, 0, 60.0, 60.0), Log(client, 10 * DAY, 60.0, 60.0);
    var price, keep := Joined(rows, Audio), Where(Filter(Some(client), None, None));
    OneRowPrice(client, rates, 0);
    OneRowPrice(client, rates, 10);
    assert before.Day() == 0 && after.Day() == 10;
    assert price(before) == None && price(after) == Some(2.0);
    TwoLogs(before, after, keep, price, Audio);
    hide Aggregate, Joined;
    UnpricedSum(Query([before, after], rows, Filter(Some(client), None, None), Audio));
  }

  lemma OneTariff(client: string, rates: Rates)
    ensures RunAll({client}, [Request(client, rates, Some(10), 0)]) == [Row(client, rates, 10, None)]
  {
    var q := Request(client, rates, Some(10), 0);
    assert [q][..0] == [];
    assert RunAll({client}, []) == [];
    assert Create([], {client}, q).0 == [Row(client, rates, 10, None)];
  }

  lemma OneRowPrice(client: string, rates: Rates, day: int)
    ensures RatesAt([Row(client, rates, 10, None)], client, day) == if day < 10 then None else Some(rates)
  {
    var row := Row(client, rates, 10, None);
    assert [row][..0] == [];
    assert Lookup([], client, day) == None;
  }

  lemma UnpricedSum(a: Aggregates)
    requires a == Plus(One(60.0, None), One(60.0, Some(2.0)))
    ensures PricingOption(a) == Priced(2.0, 2.0) && a.seconds / 60.0 == 2.0
  {
    assert a.rates == {2.0};
  }

  lemma TwoLogs(a: Log, b: Log, keep: Log -> bool, price: Log -> Option<real>, side: Side)
    requires keep(a) && keep(b)
    ensures Aggregate([a, b], keep, price, side) ==
      Plus(One(Seconds(a, side), price(a)), One(Seconds(b, side), price(b)))
  {
    hide Plus, One, Seconds;
    assert [a, b][..1] == [a] && [a][..0] == [];
    PlusSwap(One(Seconds(a, side), price(a)), ZERO, ZERO);
    assert Aggregate([], keep, price, side) == ZERO;
    assert Aggregate([a], keep, price, side) == One(Seconds(a, side), price(a));
  }

  // ----- the admin report

  datatype Line = Line(client: string, count: nat, cost: Cost)

  /** A client's own summary for the dates. */
  function LineOf(logs: seq<Log>, rows: seq<Row>, client: string, from: int, to: int): Line {
    var f := Filter(Some(client), Some(from), Some(to));
    var audio, speech := Query(logs, rows, f, Audio), Query(logs, rows, f, Speech);
    Line(client, audio.count, BuildCost(audio, speech))
  }

  lemma {:induction false} SameCount(logs: seq<Log>, keep: Log -> bool, audio: Log -> Option<real>,
      speech: Log -> Option<real>)
    ensures Aggregate(logs, keep, audio, Audio).count == Aggregate(logs, keep, speech, Speech).count
  {
    if logs != [] { SameCount(logs[..|logs| - 1], keep, audio, speech); }
  }

  /** The groups of the query, audio and speech side by side. */
  function Lines(groups: seq<(string, Aggregates)>, speech: seq<(string, Aggregates)>): seq<Line>
    requires |groups| == |speech|
  {
    seq(|groups|, i requires 0 <= i < |groups| =>
      Line(groups[i].0, groups[i].1.count, BuildCost(groups[i].1, speech[i].1)))
  }

  lemma NextLine(logs: seq<Log>, rows: seq<Row>, clients: seq<string>, c: string, from: int, to: int, lines: seq<Line>)
    requires AreLines(logs, rows, clients, from, to, lines)
    ensures var line := LineOf(logs, rows, c, from, to);
      AreLines(logs, rows, clients + [c], from, to, if line.count == 0 then lines else lines + [line])
  {
    hide Aggregate, BuildCost;
    var f := Filter(Some(c), Some(from), Some(to));
    SameCount(logs, Where(f), Joined(rows, Audio), Joined(rows, Speech));
    assert (clients + [c])[..|clients|] == clients;
  }

  /** lines are those of the two queries for these clients. */
  ghost predicate AreLines(logs: seq<Log>, rows: seq<Row>, clients: seq<string>, from: int, to: int, lines: seq<Line>) {
    var audio := ByClient(logs, rows, clients, from, to, Audio);
    var speech := ByClient(logs, rows, clients, from, to, Speech);
    |audio| == |speech| && lines == Lines(audio, speech)
  }

  /** One line for each client that has logs in the range and for no other, in the order of the clients: the
      client's own summary. Together they are the groups whose aggregates sum to the summary of all. */
  method AnalyticsByClient(logs: seq<Log>, rows: seq<Row>, clients: seq<string>, from: int, to: int)
    returns (results: seq<Line>)
    requires Distinct(clients)
    ensures forall c :: c in clients && LineOf(logs, rows, c, from, to).count > 0 ==>
      LineOf(logs, rows, c, from, to) in results
    ensures forall line :: line in results ==>
      line.count > 0 && line.client in clients && line == LineOf(logs, rows, line.client, from, to)
    ensures forall i, j :: 0 <= i < j < |results| ==> results[i].client != results[j].client
    ensures AreLines(logs, rows, clients, from, to, results)
  {
    hide LineOf, AreLines;
    results := [];
    NoLines(logs, rows, from, to);
    for i := 0 to |clients|
      invariant forall c :: c in clients[..i] && LineOf(logs, rows, c, from, to).count > 0 ==>
        LineOf(logs, rows, c, from, to) in results
      invariant forall line :: line in results ==>
        line.count > 0 && line.client in clients[..i] && line == LineOf(logs, rows, line.client, from, to)
      invariant forall j, k :: 0 <= j < k < |results| ==> results[j].client != results[k].client
      invariant AreLines(logs, rows, clients[..i], from, to, results)
    {
      var line := LineOf(logs, rows, clients[i], from, to);
      LineClient(logs, rows, clients[i], from, to);
      NextLine(logs, rows, clients[..i], clients[i], from, to, results);
      assert clients[..i + 1] == clients[..i] + [clients[i]];
      assert clients[i] !in clients[..i];
      if line.count > 0 { results := results + [line]; }
    }
    assert clients[..|clients|] == clients;
  }

  lemma NoLines(logs: seq<Log>, rows: seq<Row>, from: int, to: int)
    ensures AreLines(logs, rows, [], from, to, [])
  {
  }

  lemma LineClient(logs: seq<Log>, rows: seq<Row>, client: string, from: int, to: int)
    ensures LineOf(logs, rows, client, from, to).client == client
  {
  }

  // ----- what the figures stand for

  /** The dates of a query are days, both of them included. */
  lemma KeepsDays(f: Filter, l: Log)
    ensures f.Keeps(l) <==>
      && (f.client.Some? ==> l.client == f.client.value)
      && (f.from.Some? ==> f.from.value <= l.Day())
      && (f.to.Some? ==> l.Day() <= f.to.value)
  {
    assert l.createdAt == DAY * l.Day() + l.createdAt % DAY;
  }

  function RateOrFree(rate: Option<real>): real { if rate.Some? then rate.value else 0.0 }

  /** One log: audio is billed by its audio seconds at the audio rate of its day, speech by its speech seconds at the
      speech rate; 60 seconds a minute; without a rate it is counted but not billed. */
  lemma LoneLog(l: Log, rows: seq<Row>, f: Filter)
    requires f.Keeps(l)
    ensures var a, s := Query([l], rows, f, Audio), Query([l], rows, f, Speech);
      var rates := RatesAt(rows, l.client, l.Day());
      && a.count == s.count == 1 && a.seconds == l.audioSeconds && s.seconds == l.speechSeconds
      && a.total * 60.0 == l.audioSeconds * RateOrFree(if rates.Some? then rates.value.audio else None)
      && s.total * 60.0 == l.speechSeconds * RateOrFree(if rates.Some? then rates.value.speech else None)
  {
    hide RatesAt;
    LoneAggregate(l, Where(f), Joined(rows, Audio), Audio);
    LoneAggregate(l, Where(f), Joined(rows, Speech), Speech);
    var rates := RatesAt(rows, l.client, l.Day());
    if rates.Some? && rates.value.audio.Some? { PerMinute(l.audioSeconds, rates.value.audio.value); }
    if rates.Some? && rates.value.speech.Some? { PerMinute(l.speechSeconds, rates.value.speech.value); }
  }

  lemma PerMinute(seconds: real, rate: real)
    ensures seconds / 60.0 * rate * 60.0 == seconds * rate
  {
    var m := seconds / 60.0;
    assert m * 60.0 == seconds;
    assert m * rate * 60.0 == m * 60.0 * rate;
  }

  lemma LoneAggregate(l: Log, keep: Log -> bool, price: Log -> Option<real>, side: Side)
    requires keep(l)
    ensures Aggregate([l], keep, price, side) == One(Seconds(l, side), price(l))
  {
    assert [l][..0] == [];
    PlusSwap(One(Seconds(l, side), price(l)), ZERO, ZERO);
    assert Aggregate([], keep, price, side) == ZERO;
  }

  /** And logs add up. */
  lemma LogsAdd(a: seq<Log>, b: seq<Log>, rows: seq<Row>, f: Filter, side: Side)
    ensures var x, y, z := Query(a, rows, f, side), Query(b, rows, f, side), Query(a + b, rows, f, side);
      && z.count == x.count + y.count && z.seconds == x.seconds + y.seconds && z.total == x.total + y.total
      && z.rates == x.rates + y.rates
    ensures Query(a + b, rows, f, side) == Plus(Query(a, rows, f, side), Query(b, rows, f, side))
  {
    AggregatesAdd(a, b, Where(f), Joined(rows, side), side);
  }

  lemma {:induction false} AggregatesAdd(a: seq<Log>, b: seq<Log>, keep: Log -> bool, price: Log -> Option<real>,
      side: Side)
    ensures Aggregate(a + b, keep, price, side) ==
      Plus(Aggregate(a, keep, price, side), Aggregate(b, keep, price, side))
  {
    hide Plus, One, Seconds;
    if b == [] {
      assert a + b == a;
      PlusSwap(Aggregate(a, keep, price, side), ZERO, ZERO);
    } else {
      var init, l := b[..|b| - 1], b[|b| - 1];
      AggregatesAdd(a, init, keep, price, side);
      assert (a + b)[..|a + b| - 1] == a + init;
      PlusSwap(Aggregate(a, keep, price, side), Aggregate(init, keep, price, side), One(Seconds(l, side), price(l)));
    }
  }

  /** A line shows the minutes of both sides, and each side's price: its rate if there is just one, its total, or
      nothing when nothing is charged. */
  lemma LineSays(logs: seq<Log>, rows: seq<Row>, client: string, from: int, to: int)
    ensures var line, f := LineOf(logs, rows, client, from, to), Filter(Some(client), Some(from), Some(to));
      var a, s := Query(logs, rows, f, Audio), Query(logs, rows, f, Speech);
      && line.client == client && line.count == a.count
      && line.cost.audioMinutes * 60.0 == a.seconds && line.cost.speechMinutes * 60.0 == s.seconds
      && Shows(line.cost.byAudio, a) && Shows(line.cost.bySpeech, s)
  {
    hide Aggregate;
    var f := Filter(Some(client), Some(from), Some(to));
    RatesAreThePrices(logs, Where(f), Joined(rows, Audio), Audio);
    RatesAreThePrices(logs, Where(f), Joined(rows, Speech), Speech);
    OptionShows(Query(logs, rows, f, Audio));
    OptionShows(Query(logs, rows, f, Speech));
  }

  ghost predicate Shows(o: PriceOption, a: Aggregates) {
    match o
    case Priced(rate, total) => a.rates == {rate} && total == a.total
    case TotalOnly(total) => |a.rates| != 1 && total == a.total > 0.0
    case Absent => |a.rates| != 1 && a.total <= 0.0
  }

  lemma OptionShows(a: Aggregates)
    requires if a.min.None? then a.rates == {} else a.min.value in a.rates
    ensures Shows(PricingOption(a), a)
  {
    if |a.rates| == 1 { OnlyMember(a.rates, a.min.value); }
  }
}
