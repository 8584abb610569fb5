/** src/ai_api/services/pricing.py: an append-only list of price versions, of which the
    latest that is effective at a point in time holds. */
module Pricing {
  import opened Common

  /** Microseconds. */
  type Time = int

  datatype Quote = Quote(
    inputPer1k: real, outputPer1k: real, cachedInputPer1k: Option<real>, unit: Option<string>, perUnit: Option<real>)

  datatype Version = Version(provider: string, model: string, quote: Quote, effectiveFrom: Time)

  predicate About(v: Version, provider: string, model: string) {
    v.provider == provider && v.model == model
  }

  /** The unique constraint of the table. */
  predicate OneAtATime(rows: seq<Version>) {
    forall i, j | 0 <= i < j < |rows| && About(rows[i], rows[j].provider, rows[j].model) ::
      rows[i].effectiveFrom != rows[j].effectiveFrom
  }

  predicate Eligible(v: Version, provider: string, model: string, now: Time) {
    About(v, provider, model) && v.effectiveFrom <= now
  }

  /** select_current_version, and the query of lookup_price_for_call. */
  function Current(rows: seq<Version>, provider: string, model: string, now: Time): Option<Version> {
    if rows == [] then None
    else
      var best, last := Current(rows[..|rows| - 1], provider, model, now), rows[|rows| - 1];
      if Eligible(last, provider, model, now) && (best.None? || last.effectiveFrom > best.value.effectiveFrom)
      then Some(last) else best
  }

  method SelectCurrent(rows: seq<Version>, provider: string, model: string, now: Time) returns (best: Option<Version>)
    ensures best == Current(rows, provider, model, now)
  {
    best := None;
    for i := 0 to |rows|
      invariant best == Current(rows[..i], provider, model, now)
    {
      assert rows[..i + 1][..i] == rows[..i];
      if Eligible(rows[i], provider, model, now) && (best.None? || rows[i].effectiveFrom > best.value.effectiveFrom) {
        best := Some(rows[i]);
      }
    }
    assert rows[..|rows|] == rows;
  }

  /** The current version is a row that is effective, and no effective row is later;
      there is none only if no row is effective. */
  lemma {:induction false} CurrentIsLatest(rows: seq<Version>, provider: string, model: string, now: Time)
    ensures var c := Current(rows, provider, model, now);
      && (c.Some? ==>
            && c.value in rows && c.value.provider == provider && c.value.model == model
            && c.value.effectiveFrom <= now)
      && forall v | v in rows && v.provider == provider && v.model == model && v.effectiveFrom <= now ::
           c.Some? && v.effectiveFrom <= c.value.effectiveFrom
  {
    if rows == [] {
    } else {
      CurrentIsLatest(rows[..|rows| - 1], provider, model, now);
      assert rows == rows[..|rows| - 1] + [rows[|rows| - 1]];
    }
  }

  lemma OneMoreVersion(rows: seq<Version>, v: Version, provider: string, model: string, now: Time)
    ensures Current(rows + [v], provider, model, now) ==
      var best := Current(rows, provider, model, now);
      if Eligible(v, provider, model, now) && (best.None? || v.effectiveFrom > best.value.effectiveFrom)
      then Some(v) else best
  {
    assert (rows + [v])[..|rows|] == rows;
  }

  /** A new version never changes the price of a call made before it is effective. */
  lemma PastPricesKept(rows: seq<Version>, v: Version, provider: string, model: string, callTime: Time)
    requires callTime < v.effectiveFrom
    ensures Current(rows + [v], provider, model, callTime) == Current(rows, provider, model, callTime)
  {
    OneMoreVersion(rows, v, provider, model, callTime);
  }

  /** ... and holds from then on, until a later one becomes effective. */
  lemma NewVersionHolds(rows: seq<Version>, v: Version, now: Time)
    requires OneAtATime(rows + [v]) && v.effectiveFrom <= now
    requires forall w | w in rows && About(w, v.provider, v.model) ::
      w.effectiveFrom <= v.effectiveFrom || w.effectiveFrom > now
    ensures Current(rows + [v], v.provider, v.model, now) == Some(v)
  {
    OneMoreVersion(rows, v, v.provider, v.model, now);
    CurrentIsLatest(rows, v.provider, v.model, now);
    var best := Current(rows, v.provider, v.model, now);
    if best.Some? {
      var i :| 0 <= i < |rows| && rows[i] == best.value;
      assert (rows + [v])[i] == best.value && (rows + [v])[|rows|] == v;
    }
  }

  /** A version stays current until a later one becomes effective. */
  lemma {:induction false} CurrentLasts(rows: seq<Version>, provider: string, model: string, at: Time, now: Time)
    requires at <= now
    requires forall w | w in rows && About(w, provider, model) :: w.effectiveFrom <= at || w.effectiveFrom > now
    ensures Current(rows, provider, model, now) == Current(rows, provider, model, at)
  {
    if rows == [] {
    } else {
      CurrentLasts(rows[..|rows| - 1], provider, model, at, now);
      assert rows[|rows| - 1] in rows;
    }
  }

  /* ---------- What a call costs ---------- */

  function OrZero(n: Option<int>): int {
    if n.Some? then n.value else 0
  }

  /** The prices are for a thousand tokens; cached ones have their own if there is one. */
  function CostOf(q: Quote, full: int, cached: int, completion: int): real {
    var cachedRate := if q.cachedInputPer1k.Some? then q.cachedInputPer1k.value else q.inputPer1k;
    full as real / 1000.0 * q.inputPer1k + cached as real / 1000.0 * cachedRate
    + completion as real / 1000.0 * q.outputPer1k
  }

  /** calculate_cost: the cached tokens are among the prompt's. */
  function CalculateCost(
      price: Option<Quote>, promptTokens: Option<int>, completionTokens: Option<int>, cachedTokens: Option<int>)
    : Option<real>
  {
    if price.None? then None
    else
      var prompt, cached, completion := OrZero(promptTokens), OrZero(cachedTokens), OrZero(completionTokens);
      Some(
        if prompt - cached < 0 then CostOf(price.value, 0, prompt, completion)
        else CostOf(price.value, prompt - cached, cached, completion))
  }

  /** A model without a price has no cost, and what was not counted costs nothing. */
  lemma NothingIsFree(price: Option<Quote>)
    ensures var cost := CalculateCost(price, None, None, None);
      if price.None? then cost.None? else cost.Some? && cost.value == 0.0
  {
  }

  /** No more tokens are billed as cached than the prompt has, and every token of the
      prompt is billed once: without a price of their own cached tokens change nothing. */
  lemma CachedWithinPrompt(q: Quote, prompt: nat, completion: nat, cached: nat)
    ensures cached > prompt ==>
      CalculateCost(Some(q), Some(prompt), Some(completion), Some(cached))
      == CalculateCost(Some(q), Some(prompt), Some(completion), Some(prompt))
    ensures q.cachedInputPer1k.None? ==>
      CalculateCost(Some(q), Some(prompt), Some(completion), Some(cached))
      == CalculateCost(Some(q), Some(prompt), Some(completion), None)
  {
    assert prompt - prompt == 0;
    if q.cachedInputPer1k.None? {
      if cached <= prompt {
        SamePrice(q, prompt - cached, cached, completion);
      } else {
        SamePrice(q, 0, prompt, completion);
      }
    }
  }

  lemma SamePrice(q: Quote, full: int, cached: int, completion: int)
    requires q.cachedInputPer1k.None?
    ensures CostOf(q, full, cached, completion) == CostOf(q, full + cached, 0, completion)
  {
    Distribute(full as real / 1000.0, cached as real / 1000.0, q.inputPer1k);
    assert full as real / 1000.0 + cached as real / 1000.0 == (full + cached) as real / 1000.0;
    assert 0 as real / 1000.0 * q.inputPer1k == 0.0;
  }

  lemma Distribute(x: real, y: real, rate: real)
    ensures x * rate + y * rate == (x + y) * rate
  {
  }

  /** Each kind of token has its own price for a thousand, and the costs add up. */
  lemma CostByKind(q: Quote, plain: nat, cached: nat, completion: nat)
    ensures var n, k, m := plain as real, cached as real, completion as real;
      var cachedRate := if q.cachedInputPer1k.Some? then q.cachedInputPer1k.value else q.inputPer1k;
      var cost := CalculateCost(Some(q), Some(plain + cached), Some(completion), Some(cached));
      cost.Some? && 1000.0 * cost.value == n * q.inputPer1k + k * cachedRate + m * q.outputPer1k
  {
    var cachedRate := if q.cachedInputPer1k.Some? then q.cachedInputPer1k.value else q.inputPer1k;
    Thousandth(plain as real, q.inputPer1k);
    Thousandth(cached as real, cachedRate);
    Thousandth(completion as real, q.outputPer1k);
  }

  lemma Thousandth(n: real, rate: real)
    ensures 1000.0 * (n / 1000.0 * rate) == n * rate
  {
    assert 1000.0 * (n / 1000.0 * rate) == (1000.0 * (n / 1000.0)) * rate;
  }

  predicate Acceptable(q: Quote) {
    && q.inputPer1k >= 0.0 && q.outputPer1k >= 0.0
    && (q.cachedInputPer1k.Some? ==> q.cachedInputPer1k.value >= 0.0)
    && (q.perUnit.Some? ==> q.perUnit.value >= 0.0)
  }

  predicate Taken(rows: seq<Version>, provider: string, model: string, at: Time) {
    exists i | 0 <= i < |rows| :: About(rows[i], provider, model) && rows[i].effectiveFrom == at
  }

  /** An empty unit is none. */
  function Filed(q: Quote): Quote {
    if q.unit == Some("") then q.(unit := None) else q
  }

  datatype Creation = Added | InvalidPrice | DuplicateVersion

  /** A price is refused exactly if one of its parts is negative, and a version exactly if
      the model has one of the same time; what is filed has the same prices. */
  lemma FilingRefused(rows: seq<Version>, q: Quote, provider: string, model: string, at: Time)
    ensures !Acceptable(q) <==>
      || q.inputPer1k < 0.0 || q.outputPer1k < 0.0
      || (q.cachedInputPer1k.Some? && q.cachedInputPer1k.value < 0.0) || (q.perUnit.Some? && q.perUnit.value < 0.0)
    ensures Taken(rows, provider, model, at) <==>
      exists v :: v in rows && v.provider == provider && v.model == model && v.effectiveFrom == at
    ensures Filed(q) == q.(unit := Filed(q).unit) && (q.unit != Some("") ==> Filed(q) == q) && Filed(q).unit != Some("")
  {
    if v :| v in rows && v.provider == provider && v.model == model && v.effectiveFrom == at {
      var i :| 0 <= i < |rows| && rows[i] == v;
      assert About(rows[i], provider, model);
    }
  }

  class PriceList {
    var rows: seq<Version>

    constructor ()
      ensures rows == []
    {
      rows := [];
    }

    /** create_version: append-only, one version at a time for each model. */
    method CreateVersion(provider: string, model: string, quote: Quote, effectiveFrom: Time) returns (r: Creation)
      requires OneAtATime(rows)
      modifies this
      ensures OneAtATime(rows)
      ensures r == if !Acceptable(quote) then InvalidPrice
                   else if Taken(old(rows), provider, model, effectiveFrom) then DuplicateVersion else Added
      ensures rows == old(rows) + if r.Added? then [Version(provider, model, Filed(quote), effectiveFrom)] else []
    {
      if !Acceptable(quote) {
        assert rows + [] == rows;
        return InvalidPrice;
      }
      if Taken(rows, provider, model, effectiveFrom) {
        assert rows + [] == rows;
        return DuplicateVersion;
      }
      rows := rows + [Version(provider, model, Filed(quote), effectiveFrom)];
      return Added;
    }
  }

  /* ---------- Comparing a price with the registry's ---------- */

  datatype Column = InputPer1k | OutputPer1k | CachedInputPer1k

  const COLUMNS := [InputPer1k, OutputPer1k, CachedInputPer1k]

  function ColumnOf(q: Quote, c: Column): Option<real> {
    match c
    case InputPer1k => Some(q.inputPer1k)
    case OutputPer1k => Some(q.outputPer1k)
    case CachedInputPer1k => q.cachedInputPer1k
  }

  datatype PriceDiff = PriceDiff(column: Column, current: Option<real>, latest: real, changed: bool)

  function DiffsIn(columns: seq<Column>, current: Option<Quote>, latest: Option<Quote>): seq<PriceDiff> {
    if columns == [] then []
    else
      var c := columns[|columns| - 1];
      var earlier := DiffsIn(columns[..|columns| - 1], current, latest);
      var cur := if current.Some? then ColumnOf(current.value, c) else None;
      if latest.None? || ColumnOf(latest.value, c).None? then earlier
      else
        var latestV := ColumnOf(latest.value, c).value;
        earlier + [PriceDiff(c, cur, latestV, cur != Some(latestV))]
  }

  /** _price_diffs */
  method PriceDiffs(current: Option<Quote>, latest: Option<Quote>) returns (diffs: seq<PriceDiff>)
    ensures diffs == DiffsIn(COLUMNS, current, latest)
  {
    diffs := [];
    for i := 0 to |COLUMNS|
      invariant diffs == DiffsIn(COLUMNS[..i], current, latest)
    {
      var c := COLUMNS[i];
      assert COLUMNS[..i + 1][..i] == COLUMNS[..i];
      var newV := if latest.Some? then ColumnOf(latest.value, c) else None;
      if newV.None? {
        continue;
      }
      var curV := if current.Some? then ColumnOf(current.value, c) else None;
      var changed := curV.None? || curV.value != newV.value;
      diffs := diffs + [PriceDiff(c, curV, newV.value, changed)];
    }
    assert COLUMNS[..|COLUMNS|] == COLUMNS;
  }

  /** A difference is reported for a column exactly if the registry has a price there and
      the model's is another or missing; of the unit price nothing is ever reported. */
  lemma {:induction false} DiffsReportColumns(columns: seq<Column>, current: Option<Quote>, latest: Option<Quote>)
    ensures forall d | d in DiffsIn(columns, current, latest) ::
      && d.column in columns && latest.Some? && ColumnOf(latest.value, d.column) == Some(d.latest)
      && (d.changed <==> current.None? || ColumnOf(current.value, d.column) != Some(d.latest))
    ensures forall c | c in columns && latest.Some? && ColumnOf(latest.value, c).Some? ::
      exists d :: d in DiffsIn(columns, current, latest) && d.column == c
  {
    if columns == [] {
    } else {
      var front, last := columns[..|columns| - 1], columns[|columns| - 1];
      DiffsReportColumns(front, current, latest);
      assert columns == front + [last];
      var diffs := DiffsIn(columns, current, latest);
      forall c | c in columns && latest.Some? && ColumnOf(latest.value, c).Some?
        ensures exists d :: d in diffs && d.column == c
      {
        if c in front {
          var d :| d in DiffsIn(front, current, latest) && d.column == c;
          assert d in diffs;
        } else {
          assert diffs[|diffs| - 1].column == c && diffs[|diffs| - 1] in diffs;
        }
      }
    }
  }

  /** Of the registry's price the input and the output column are always compared, and the
      cached one if the registry has it, each with the same column of the model's. */
  lemma PriceDiffsExactly(current: Option<Quote>, latest: Quote)
    ensures var diffs := DiffsIn(COLUMNS, current, Some(latest));
      && |diffs| == (if latest.cachedInputPer1k.Some? then 3 else 2)
      && diffs[0].column == InputPer1k && diffs[0].latest == latest.inputPer1k
      && diffs[0].current == (if current.Some? then Some(current.value.inputPer1k) else None)
      && diffs[1].column == OutputPer1k && diffs[1].latest == latest.outputPer1k
      && diffs[1].current == (if current.Some? then Some(current.value.outputPer1k) else None)
      && (|diffs| == 3 ==>
            && diffs[2].column == CachedInputPer1k && diffs[2].latest == latest.cachedInputPer1k.value
            && diffs[2].current == (if current.Some? then current.value.cachedInputPer1k else None))
      && forall d | d in diffs :: d.changed <==> d.current.None? || d.current.value != d.latest
    ensures DiffsIn(COLUMNS, current, None) == []
  {
    OneMoreColumn([], InputPer1k, current, latest);
    OneMoreColumn([InputPer1k], OutputPer1k, current, latest);
    OneMoreColumn([InputPer1k, OutputPer1k], CachedInputPer1k, current, latest);
    assert [] + [InputPer1k] == [InputPer1k] && [InputPer1k] + [OutputPer1k] == [InputPer1k, OutputPer1k];
    assert [InputPer1k, OutputPer1k] + [CachedInputPer1k] == COLUMNS;
    NothingToCompare(COLUMNS, current);
  }

  lemma OneMoreColumn(columns: seq<Column>, c: Column, current: Option<Quote>, latest: Quote)
    ensures DiffsIn(columns + [c], current, Some(latest)) ==
      var cur := if current.Some? then ColumnOf(current.value, c) else None;
      DiffsIn(columns, current, Some(latest))
      + match ColumnOf(latest, c) { case None => [] case Some(v) => [PriceDiff(c, cur, v, cur != Some(v))] }
  {
    assert (columns + [c])[..|columns|] == columns;
  }

  lemma {:induction false} NothingToCompare(columns: seq<Column>, current: Option<Quote>)
    ensures DiffsIn(columns, current, None) == []
  {
    if columns == [] {
    } else {
      NothingToCompare(columns[..|columns| - 1], current);
    }
  }
}
