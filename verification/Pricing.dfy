/** The tariff table: rows closed and inserted by each request, looked up by date, and
    the step function it stands for. Dates are day numbers. */
module Pricing {
  import opened Words

  datatype Rates = Rates(audio: Option<real>, speech: Option<real>)
  datatype Row = Row(client: string, rates: Rates, validFrom: int, validTo: Option<int>)

  /** A tariff request, and the day on which it is made. */
  datatype Request = Request(client: string, rates: Rates, validFrom: Option<int>, today: int) {
    function From(): int { if validFrom.Some? then validFrom.value else today }
    function Key(): (string, int) { (client, From()) }
  }

  datatype Reply = Created(row: Row) | ClientNotFound | PricingConflict

  // ----- the statements

  function Closed(r: Row, client: string, from: int): Row {
    if r.client == client && r.validTo.None? && r.validFrom < from then r.(validTo := Some(from - 1)) else r
  }

  /** UPDATE: the client's open rows that begin earlier end the day before. */
  function CloseOpen(rows: seq<Row>, client: string, from: int): (r: seq<Row>)
    ensures |r| == |rows|
  {
    seq(|rows|, i requires 0 <= i < |rows| => Closed(rows[i], client, from))
  }

  /** Some row has this client and this first day: an INSERT of another one is refused. */
  predicate Taken(rows: seq<Row>, key: (string, int)) {
    exists i :: 0 <= i < |rows| && (rows[i].client, rows[i].validFrom) == key
  }

  function Create(rows: seq<Row>, clients: set<string>, q: Request): (seq<Row>, Reply) {
    if q.client !in clients then (rows, ClientNotFound)
    else if Taken(rows, q.Key()) then (rows, PricingConflict)
    else
      var row := Row(q.client, q.rates, q.From(), None);
      (CloseOpen(rows, q.client, q.From()) + [row], Created(row))
  }

  predicate Active(r: Row, client: string, date: int) {
    r.client == client && r.validFrom <= date && (r.validTo.None? || r.validTo.value >= date)
  }

  /** SELECT ... ORDER BY valid_from DESC LIMIT 1. */
  function Lookup(rows: seq<Row>, client: string, date: int): (r: Option<Row>)
    ensures r.Some? ==> r.value in rows && Active(r.value, client, date)
    ensures forall x :: x in rows && Active(x, client, date) ==> r.Some? && x.validFrom <= r.value.validFrom
  {
    if rows == [] then None
    else
      var last, best := rows[|rows| - 1], Lookup(rows[..|rows| - 1], client, date);
      assert rows == rows[..|rows| - 1] + [last];
      if Active(last, client, date) && (best.None? || best.value.validFrom < last.validFrom) then Some(last) else best
  }

  class PricingTable {
    const clients: set<string>
    var rows: seq<Row>

    constructor (clients: set<string>)
      ensures this.clients == clients && rows == []
    {
      this.clients := clients;
      rows := [];
    }

    /** One transaction: close, then insert; a duplicate undoes the closing too. */
    method CreateClientPricing(q: Request) returns (reply: Reply)
      modifies this
      ensures (rows, reply) == Create(old(rows), clients, q)
    {
      if q.client !in clients { return ClientNotFound; }
      var saved := rows;
      rows := CloseOpen(rows, q.client, q.From());
      CloseKeepsKeys(saved, q.client, q.From(), q.Key());
      if Taken(rows, q.Key()) {
        rows := saved;
        return PricingConflict;
      }
      var row := Row(q.client, q.rates, q.From(), None);
      rows := rows + [row];
      reply := Created(row);
    }

    /** An active row that begins no earlier than any other, and none only if none is active. */
    method GetActiveClientPricing(client: string, today: int) returns (row: Option<Row>)
      ensures row.Some? ==> row.value in rows && Active(row.value, client, today)
      ensures forall r :: r in rows && Active(r, client, today) ==> row.Some? && r.validFrom <= row.value.validFrom
      ensures row == Lookup(rows, client, today)
    {
      hide Active;
      row := None;
      for i := 0 to |rows|
        invariant row == Lookup(rows[..i], client, today)
      {
        assert rows[..i + 1][..i] == rows[..i];
        var r := rows[i];
        if Active(r, client, today) && (row.None? || row.value.validFrom < r.validFrom) { row := Some(r); }
      }
      assert rows[..|rows|] == rows;
    }
  }

  lemma CloseKeepsKeys(rows: seq<Row>, client: string, from: int, key: (string, int))
    ensures Taken(CloseOpen(rows, client, from), key) <==> Taken(rows, key)
  {
    var r := CloseOpen(rows, client, from);
    assert forall i :: 0 <= i < |rows| ==> (r[i].client, r[i].validFrom) == (rows[i].client, rows[i].validFrom);
  }

  /** The row r stays as it is, but that an open one of the client that begins before `from` ends the day before. */
  predicate Stays(r: Row, now: Row, client: string, from: int) {
    && now.client == r.client && now.rates == r.rates && now.validFrom == r.validFrom
    && if r.client == client && r.validTo.None? && r.validFrom < from then now.validTo == Some(from - 1)
      else now.validTo == r.validTo
  }

  /** An accepted request adds one row, which it answers with: its client's rates, from the day asked for or today,
      without end. The other rows keep client, rates and first day; one of them ends now, the day before, only if it
      was open and began earlier. A refused request changes nothing. */
  lemma CreateAnswers(rows: seq<Row>, clients: set<string>, q: Request)
    ensures var (after, reply) := Create(rows, clients, q);
      var from := if q.validFrom.Some? then q.validFrom.value else q.today;
      match reply
      case ClientNotFound => q.client !in clients && after == rows
      case PricingConflict =>
        q.client in clients && after == rows && exists r :: r in rows && r.client == q.client && r.validFrom == from
      case Created(row) =>
        && q.client in clients && row == Row(q.client, q.rates, from, None)
        && (forall r :: r in rows ==> r.client != q.client || r.validFrom != from)
        && |after| == |rows| + 1 && after[|rows|] == row
        && forall i :: 0 <= i < |rows| ==> Stays(rows[i], after[i], q.client, from)
  {
    if q.client in clients {
      if Taken(rows, q.Key()) {
        var i :| 0 <= i < |rows| && (rows[i].client, rows[i].validFrom) == q.Key();
        assert rows[i] in rows;
      } else {
        forall r | r in rows
          ensures r.client != q.client || r.validFrom != q.From()
        {
          var i :| 0 <= i < |rows| && rows[i] == r;
          assert (rows[i].client, rows[i].validFrom) != q.Key();
        }
      }
    }
  }

  // ----- what every run keeps

  function RunAll(clients: set<string>, qs: seq<Request>): seq<Row> {
    if qs == [] then [] else Create(RunAll(clients, qs[..|qs| - 1]), clients, qs[|qs| - 1]).0
  }

  ghost predicate DistinctKeys(rows: seq<Row>) {
    forall i, j :: 0 <= i < j < |rows| ==> rows[i].client != rows[j].client || rows[i].validFrom != rows[j].validFrom
  }

  /** A row that ended did so because a later row of the client begins the next day. */
  ghost predicate EndsAtSuccessor(rows: seq<Row>, r: Row) {
    r.validTo.Some? ==> r.validFrom <= r.validTo.value && Taken(rows, (r.client, r.validTo.value + 1))
  }

  ghost predicate Consistent(rows: seq<Row>) {
    DistinctKeys(rows) && forall i :: 0 <= i < |rows| ==> EndsAtSuccessor(rows, rows[i])
  }

  lemma TakenMore(rows: seq<Row>, row: Row, key: (string, int))
    ensures Taken(rows + [row], key) <==> Taken(rows, key) || key == (row.client, row.validFrom)
  {
    var r := rows + [row];
    assert forall i :: 0 <= i < |rows| ==> r[i] == rows[i];
    assert r[|rows|] == row;
    if Taken(r, key) {
      var i :| 0 <= i < |r| && (r[i].client, r[i].validFrom) == key;
      if i < |rows| { assert rows[i] == r[i]; }
    }
    if Taken(rows, key) {
      var i :| 0 <= i < |rows| && (rows[i].client, rows[i].validFrom) == key;
      assert r[i] == rows[i];
    }
  }

  lemma CreateConsistent(rows: seq<Row>, clients: set<string>, q: Request)
    requires Consistent(rows)
    ensures Consistent(Create(rows, clients, q).0)
  {
    if q.client in clients && !Taken(rows, q.Key()) {
      var row := Row(q.client, q.rates, q.From(), None);
      var mid := CloseOpen(rows, q.client, q.From());
      var r := mid + [row];
      forall i | 0 <= i < |r|
        ensures EndsAtSuccessor(r, r[i])
      {
        if i < |rows| && r[i].validTo.Some? {
          var key := (r[i].client, r[i].validTo.value + 1);
          TakenMore(mid, row, key);
          CloseKeepsKeys(rows, q.client, q.From(), key);
          assert r[i] == Closed(rows[i], q.client, q.From());
          assert EndsAtSuccessor(rows, rows[i]);
        }
      }
      forall i, j | 0 <= i < j < |r|
        ensures r[i].client != r[j].client || r[i].validFrom != r[j].validFrom
      {
        assert r[i] == Closed(rows[i], q.client, q.From());
        if j < |rows| { assert r[j] == Closed(rows[j], q.client, q.From()); }
      }
    }
  }

  /** In every reachable table keys are unique, and each closed row's successor begins the day
      after it ends. So the row with a client's latest first day is open. */
  lemma {:induction false} RunConsistent(clients: set<string>, qs: seq<Request>)
    ensures Consistent(RunAll(clients, qs))
  {
    if qs != [] {
      RunConsistent(clients, qs[..|qs| - 1]);
      CreateConsistent(RunAll(clients, qs[..|qs| - 1]), clients, qs[|qs| - 1]);
    }
  }

  lemma LatestIsOpen(rows: seq<Row>, i: nat)
    requires Consistent(rows) && i < |rows|
    requires forall j :: 0 <= j < |rows| && rows[j].client == rows[i].client ==> rows[j].validFrom <= rows[i].validFrom
    ensures rows[i].validTo.None?
  {
    assert EndsAtSuccessor(rows, rows[i]);
  }

  // ----- which rows a new tariff leaves open

  /** Only the row in hand is open of this client's. */
  ghost predicate OthersClosed(rows: seq<Row>, client: string, n: nat) {
    forall i :: 0 <= i < n < |rows| && rows[i].client == client ==> rows[i].validTo.Some?
  }

  /** A created tariff closes every open row of its client exactly when all of these begin before it. */
  lemma ClosesTheOpen(rows: seq<Row>, clients: set<string>, q: Request)
    requires Create(rows, clients, q).1.Created?
    ensures OthersClosed(Create(rows, clients, q).0, q.client, |rows|) <==>
      forall r :: r in rows && r.client == q.client && r.validTo.None? ==> r.validFrom < q.From()
  {
    var mid := CloseOpen(rows, q.client, q.From());
    var after := Create(rows, clients, q).0;
    assert forall i :: 0 <= i < |rows| ==> after[i] == mid[i] == Closed(rows[i], q.client, q.From());
    if OthersClosed(after, q.client, |rows|) {
      forall r | r in rows && r.client == q.client && r.validTo.None?
        ensures r.validFrom < q.From()
      {
        var i :| 0 <= i < |rows| && rows[i] == r;
        assert after[i].validTo.Some?;
      }
    }
  }

  /** In any reachable table that is to say: exactly when the tariff is not dated before another of its client. */
  lemma ClosesUnlessBackDated(clients: set<string>, qs: seq<Request>, q: Request)
    requires Create(RunAll(clients, qs), clients, q).1.Created?
    ensures var rows := RunAll(clients, qs);
      OthersClosed(Create(rows, clients, q).0, q.client, |rows|) <==>
        forall r :: r in rows && r.client == q.client ==> r.validFrom < q.From()
  {
    hide RunAll, Create, OthersClosed, Consistent;
    var rows := RunAll(clients, qs);
    RunConsistent(clients, qs);
    ClosesTheOpen(rows, clients, q);
    if exists r :: r in rows && r.client == q.client && r.validFrom >= q.From() {
      var last := LatestOpen(rows, q.client, q.From());
    }
  }

  /** If a client has a row from some day on, it has an open one. */
  lemma LatestOpen(rows: seq<Row>, client: string, from: int) returns (last: Row)
    requires Consistent(rows)
    requires exists r :: r in rows && r.client == client && r.validFrom >= from
    ensures last in rows && last.client == client && last.validTo.None? && last.validFrom >= from
  {
    hide Consistent;
    var r :| r in rows && r.client == client && r.validFrom >= from;
    var i := LatestRow(rows, client, |rows|, r);
    LatestIsOpen(rows, i);
    last := rows[i];
  }

  lemma {:induction false} LatestRow(rows: seq<Row>, client: string, n: nat, r: Row) returns (best: nat)
    requires n <= |rows| && r in rows[..n] && r.client == client
    ensures best < n && rows[best].client == client && rows[best].validFrom >= r.validFrom
    ensures forall j :: 0 <= j < n && rows[j].client == client ==> rows[j].validFrom <= rows[best].validFrom
  {
    var last := rows[n - 1];
    assert rows[..n] == rows[..n - 1] + [last];
    if last.client != client {
      best := LatestRow(rows, client, n - 1, r);
    } else if exists s :: s in rows[..n - 1] && s.client == client && s.validFrom > last.validFrom {
      var s :| s in rows[..n - 1] && s.client == client && s.validFrom > last.validFrom;
      best := LatestRow(rows, client, n - 1, if s.validFrom >= r.validFrom then s else r);
    } else {
      best := n - 1;
      forall j | 0 <= j < n && rows[j].client == client
        ensures rows[j].validFrom <= last.validFrom
      {
        if j < n - 1 { assert rows[j] in rows[..n - 1]; }
      }
    }
  }

  /** A tariff from day 10 on, then one from day 5 on: both stay open. */
  lemma BackDatedLeavesTwoOpen(clients: set<string>, client: string, rates: Rates)
    requires client in clients
    ensures var qs := [Request(client, rates, Some(10), 0), Request(client, rates, Some(5), 0)];
      RunAll(clients, qs) == [Row(client, rates, 10, None), Row(client, rates, 5, None)]
  {
    var a, b := Request(client, rates, Some(10), 0), Request(client, rates, Some(5), 0);
    assert [a, b][..1] == [a] && [a][..0] == [];
    assert Create([], clients, a).0 == [Row(client, rates, 10, None)];
    assert RunAll(clients, [a]) == [Row(client, rates, 10, None)];
    var rows := [Row(client, rates, 10, None)];
    assert CloseOpen(rows, client, 5) == rows;
  }

  // ----- the step function

  /** First days and rates by client: what the requests mean, without any closing. */
  type Tariffs = map<(string, int), Rates>

  function Accept(t: Tariffs, clients: set<string>, q: Request): Tariffs {
    if q.client in clients && q.Key() !in t then t[q.Key() := q.rates] else t
  }

  function AcceptAll(clients: set<string>, qs: seq<Request>): Tariffs {
    if qs == [] then map[] else Accept(AcceptAll(clients, qs[..|qs| - 1]), clients, qs[|qs| - 1])
  }

  /** f is the client's last first day up to date. */
  ghost predicate LastFirstDay(t: Tariffs, client: string, date: int, f: int) {
    && (client, f) in t && f <= date
    && forall g: int :: (client, g) in t && g <= date ==> g <= f
  }

  /** The table holds exactly the accepted tariffs. */
  ghost predicate Holds(rows: seq<Row>, t: Tariffs) {
    && (forall key :: key in t <==> Taken(rows, key))
    && (forall i :: 0 <= i < |rows| ==> KeyOf(rows[i]) in t && t[KeyOf(rows[i])] == rows[i].rates)
  }

  function KeyOf(r: Row): (string, int) { (r.client, r.validFrom) }

  lemma CreateHolds(rows: seq<Row>, t: Tariffs, clients: set<string>, q: Request)
    requires Holds(rows, t)
    ensures Holds(Create(rows, clients, q).0, Accept(t, clients, q))
    ensures Create(rows, clients, q).1.Created? <==> q.client in clients && q.Key() !in t
  {
    if q.client in clients && !Taken(rows, q.Key()) {
      var row := Row(q.client, q.rates, q.From(), None);
      var mid := CloseOpen(rows, q.client, q.From());
      var r, t' := mid + [row], Accept(t, clients, q);
      forall key
        ensures key in t' <==> Taken(r, key)
      {
        TakenMore(mid, row, key);
        CloseKeepsKeys(rows, q.client, q.From(), key);
      }
      forall i | 0 <= i < |r|
        ensures KeyOf(r[i]) in t' && t'[KeyOf(r[i])] == r[i].rates
      {
        if i < |rows| {
          assert r[i] == Closed(rows[i], q.client, q.From());
          assert Taken(rows, KeyOf(rows[i]));
        }
      }
    }
  }

  lemma {:induction false} RunHolds(clients: set<string>, qs: seq<Request>)
    ensures Holds(RunAll(clients, qs), AcceptAll(clients, qs))
  {
    if qs != [] {
      RunHolds(clients, qs[..|qs| - 1]);
      CreateHolds(RunAll(clients, qs[..|qs| - 1]), AcceptAll(clients, qs[..|qs| - 1]), clients, qs[|qs| - 1]);
    }
  }

  /** The row with the greatest first day up to date is active on that date. */
  lemma LastIsActive(rows: seq<Row>, i: nat, date: int)
    requires Consistent(rows) && i < |rows| && rows[i].validFrom <= date
    requires forall j :: 0 <= j < |rows| && rows[j].client == rows[i].client && rows[j].validFrom <= date ==>
      rows[j].validFrom <= rows[i].validFrom
    ensures Active(rows[i], rows[i].client, date)
  {
    assert EndsAtSuccessor(rows, rows[i]);
    if rows[i].validTo.Some? && rows[i].validTo.value < date {
      assert false;
    }
  }

  lemma {:induction false} GreatestUpTo(rows: seq<Row>, client: string, date: int, n: nat) returns (best: int)
    requires n <= |rows|
    ensures -1 <= best < n
    ensures best >= 0 ==> rows[best].client == client && rows[best].validFrom <= date
    ensures forall j :: 0 <= j < n && rows[j].client == client && rows[j].validFrom <= date ==>
      best >= 0 && rows[j].validFrom <= rows[best].validFrom
  {
    if n == 0 { best := -1; }
    else {
      best := GreatestUpTo(rows, client, date, n - 1);
      var r := rows[n - 1];
      if r.client == client && r.validFrom <= date && (best < 0 || rows[best].validFrom < r.validFrom) {
        best := n - 1;
      }
    }
  }

  /** The step function: the rates of the last first day up to date, if there is one. */
  ghost function StepRates(t: Tariffs, client: string, date: int): Option<Rates> {
    if f: int :| LastFirstDay(t, client, date, f) then Some(t[(client, f)]) else None
  }

  lemma StepIs(t: Tariffs, client: string, date: int, f: int)
    requires LastFirstDay(t, client, date, f)
    ensures StepRates(t, client, date) == Some(t[(client, f)])
  {
  }

  lemma StepIsNone(t: Tariffs, client: string, date: int)
    requires forall g: int :: (client, g) in t ==> g > date
    ensures StepRates(t, client, date) == None
  {
  }

  function RatesAt(rows: seq<Row>, client: string, date: int): Option<Rates> {
    var r := Lookup(rows, client, date);
    if r.Some? then Some(r.value.rates) else None
  }

  lemma FoundIsLast(rows: seq<Row>, t: Tariffs, client: string, date: int, best: nat)
    requires Consistent(rows) && Holds(rows, t)
    requires best < |rows| && rows[best].client == client && rows[best].validFrom <= date
    requires forall j :: 0 <= j < |rows| && rows[j].client == client && rows[j].validFrom <= date ==>
      rows[j].validFrom <= rows[best].validFrom
    ensures LastFirstDay(t, client, date, rows[best].validFrom)
    ensures Lookup(rows, client, date) == Some(rows[best])
  {
    LastInTable(rows, t, client, date, best);
    LastIsFound(rows, client, date, best);
  }

  lemma LastInTable(rows: seq<Row>, t: Tariffs, client: string, date: int, best: nat)
    requires Holds(rows, t)
    requires best < |rows| && rows[best].client == client && rows[best].validFrom <= date
    requires forall j :: 0 <= j < |rows| && rows[j].client == client && rows[j].validFrom <= date ==>
      rows[j].validFrom <= rows[best].validFrom
    ensures LastFirstDay(t, client, date, rows[best].validFrom)
  {
    assert KeyOf(rows[best]) in t;
    forall g: int | (client, g) in t && g <= date
      ensures g <= rows[best].validFrom
    {
      assert Taken(rows, (client, g));
    }
  }

  lemma LastIsFound(rows: seq<Row>, client: string, date: int, best: nat)
    requires Consistent(rows)
    requires best < |rows| && rows[best].client == client && rows[best].validFrom <= date
    requires forall j :: 0 <= j < |rows| && rows[j].client == client && rows[j].validFrom <= date ==>
      rows[j].validFrom <= rows[best].validFrom
    ensures Lookup(rows, client, date) == Some(rows[best])
  {
    hide Lookup, EndsAtSuccessor;
    LastIsActive(rows, best, date);
    assert rows[best] in rows;
    var r := Lookup(rows, client, date);
    var k :| 0 <= k < |rows| && rows[k] == r.value;
  }

  /** The lookup is the step function. */
  lemma LookupIsStep(rows: seq<Row>, t: Tariffs, client: string, date: int)
    requires Consistent(rows) && Holds(rows, t)
    ensures RatesAt(rows, client, date) == StepRates(t, client, date)
  {
    hide Lookup, Consistent, StepRates, LastFirstDay;
    var best := GreatestUpTo(rows, client, date, |rows|);
    if best >= 0 {
      FoundIsLast(rows, t, client, date, best);
      StepIs(t, client, date, rows[best].validFrom);
      assert KeyOf(rows[best]) in t;
    } else {
      NoneFound(rows, t, client, date);
    }
  }

  lemma NoneFound(rows: seq<Row>, t: Tariffs, client: string, date: int)
    requires Holds(rows, t)
    requires forall j :: 0 <= j < |rows| && rows[j].client == client ==> rows[j].validFrom > date
    ensures Lookup(rows, client, date) == None && StepRates(t, client, date) == None
  {
    hide Lookup;
    forall g: int | (client, g) in t
      ensures g > date
    {
      assert Taken(rows, (client, g));
    }
    StepIsNone(t, client, date);
  }

  /** After any requests in any order, back-dated and refused ones included, the table answers as the
      step function of the accepted tariffs. */
  lemma RunIsStep(clients: set<string>, qs: seq<Request>, client: string, date: int)
    ensures RatesAt(RunAll(clients, qs), client, date) == StepRates(AcceptAll(clients, qs), client, date)
  {
    RunConsistent(clients, qs);
    RunHolds(clients, qs);
    LookupIsStep(RunAll(clients, qs), AcceptAll(clients, qs), client, date);
  }

  // ----- one more tariff

  /** No tariff of the client begins after from, up to date. */
  ghost predicate Unsuperseded(t: Tariffs, client: string, from: int, date: int) {
    forall g: int :: from < g <= date ==> (client, g) !in t
  }

  /** A created tariff changes the answer exactly from its first day until the client's next one. */
  lemma CreateEffect(rows: seq<Row>, t: Tariffs, clients: set<string>, q: Request, client: string, date: int)
    requires Consistent(rows) && Holds(rows, t)
    requires Create(rows, clients, q).1.Created?
    ensures RatesAt(Create(rows, clients, q).0, client, date) ==
      if client == q.client && q.From() <= date && Unsuperseded(t, client, q.From(), date) then Some(q.rates)
      else RatesAt(rows, client, date)
  {
    CreateConsistent(rows, clients, q);
    CreateHolds(rows, t, clients, q);
    LookupIsStep(rows, t, client, date);
    LookupIsStep(Create(rows, clients, q).0, Accept(t, clients, q), client, date);
    StepEffect(t, clients, q, client, date);
  }

  lemma StepEffect(t: Tariffs, clients: set<string>, q: Request, client: string, date: int)
    requires q.client in clients && q.Key() !in t
    ensures StepRates(Accept(t, clients, q), client, date) ==
      if client == q.client && q.From() <= date && Unsuperseded(t, client, q.From(), date) then Some(q.rates)
      else StepRates(t, client, date)
  {
    var t', f := Accept(t, clients, q), q.From();
    if client == q.client && f <= date && Unsuperseded(t, client, f, date) {
      assert LastFirstDay(t', client, date, f);
      StepIs(t', client, date, f);
    } else {
      forall g: int
        ensures LastFirstDay(t', client, date, g) <==> LastFirstDay(t, client, date, g)
      {
      }
    }
  }

  // ----- order of the requests

  ghost predicate DifferentKeys(qs: seq<Request>) {
    forall i, j :: 0 <= i < j < |qs| ==> qs[i].Key() != qs[j].Key()
  }

  /** Each request of a known client is in the tariffs, and nothing else is. */
  ghost predicate Accepted(t: Tariffs, clients: set<string>, qs: seq<Request>) {
    && (forall key :: key in t ==> exists q :: q in qs && q.client in clients && q.Key() == key)
    && (forall q :: q in qs && q.client in clients ==> q.Key() in t && t[q.Key()] == q.rates)
  }

  lemma AcceptNext(t: Tariffs, clients: set<string>, qs: seq<Request>, last: Request)
    requires Accepted(t, clients, qs)
    requires forall q :: q in qs ==> q.Key() != last.Key()
    ensures Accepted(Accept(t, clients, last), clients, qs + [last])
  {
    var u := Accept(t, clients, last);
    forall key | key in u
      ensures exists q :: q in qs + [last] && q.client in clients && q.Key() == key
    {
      if key in t {
        var q :| q in qs && q.client in clients && q.Key() == key;
        assert q in qs + [last];
      } else {
        assert last in qs + [last];
      }
    }
  }

  lemma AcceptedNone(clients: set<string>)
    ensures Accepted(map[], clients, [])
  {
  }

  lemma {:induction false} AcceptedTariffs(clients: set<string>, qs: seq<Request>)
    requires DifferentKeys(qs)
    ensures Accepted(AcceptAll(clients, qs), clients, qs)
  {
    hide Accept, Accepted;
    if qs == [] {
      AcceptedNone(clients);
    } else {
      var init, last := qs[..|qs| - 1], qs[|qs| - 1];
      AcceptedTariffs(clients, init);
      assert qs == init + [last];
      forall q | q in init
        ensures q.Key() != last.Key()
      {
        var i :| 0 <= i < |init| && init[i] == q;
        assert qs[i] == q;
      }
      AcceptNext(AcceptAll(clients, init), clients, init, last);
    }
  }

  /** The same requests, none for a first day already asked for, in any order: the same answers for ever. */
  lemma OrderFree(clients: set<string>, a: seq<Request>, b: seq<Request>, client: string, date: int)
    requires DifferentKeys(a) && DifferentKeys(b)
    requires forall q :: q in a <==> q in b
    ensures RatesAt(RunAll(clients, a), client, date) == RatesAt(RunAll(clients, b), client, date)
  {
    SameRequestsSameTariffs(clients, a, b);
    RunIsStep(clients, a, client, date);
    RunIsStep(clients, b, client, date);
  }

  lemma SameRequestsSameTariffs(clients: set<string>, a: seq<Request>, b: seq<Request>)
    requires DifferentKeys(a) && DifferentKeys(b)
    requires forall q :: q in a <==> q in b
    ensures AcceptAll(clients, a) == AcceptAll(clients, b)
  {
    hide AcceptAll;
    AcceptedTariffs(clients, a);
    AcceptedTariffs(clients, b);
    var t, u := AcceptAll(clients, a), AcceptAll(clients, b);
    forall key
      ensures key in t ==> key in u && t[key] == u[key]
      ensures key in u ==> key in t
    {
      if key in t {
        var q :| q in a && q.client in clients && q.Key() == key;
        assert q in b && q.Key() in u;
      }
      if key in u {
        var q :| q in b && q.client in clients && q.Key() == key;
        assert q in a && q.Key() in t;
      }
    }
  }
}
