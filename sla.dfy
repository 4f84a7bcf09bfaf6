/** The SLA recorder: once per tick it reads the prober's two counters back
    from the time-series backend, turns them into an availability ratio,
    compares the ratio with the objective and appends one indicator row. */
module Sla {
  import opened Wrappers
  import opened PyJson

  /** The objective the availability ratio must meet or exceed. */
  const SLO: real := 0.999

  const IndicatorName: string := "oncall_web_availability_sli"

  // ---------------------------------------------------------------------
  // Reading a sample from the time-series backend

  /** What an instant query came back with: the request raised (network
      error, timeout), the body was not JSON, or the decoded body. The HTTP
      status code is not inspected. */
  datatype Response = RequestFailed | NotJson | Decoded(content: Json)

  /** The shape `{"data": {"result": [{"value": [_, sample, ...]}, ...]}}`
      under which a sample can be read; `value` may also be a string of at
      least two characters, whose second character is then the sample. */
  predicate WellShaped(content: Json)
  {
    content.Obj? && "data" in content.fields &&
    var data := content.fields["data"];
    data.Obj? && "result" in data.fields &&
    var result := data.fields["result"];
    result.Arr? && |result.items| > 0 &&
    var first := result.items[0];
    first.Obj? && "value" in first.fields &&
    var value := first.fields["value"];
    (value.Arr? && |value.items| >= 2) || (value.Str? && |value.s| >= 2)
  }

  /** The element at position 1 of the first result's `value`. */
  function Sample(content: Json): Json
    requires WellShaped(content)
  {
    var value := content.fields["data"].fields["result"].items[0].fields["value"];
    if value.Arr? then value.items[1] else Str([value.s[1]])
  }

  /** `content['data']['result'][0]['value'][1]`, with every step that would
      raise falling back to `default`, and `default` as well for an empty or
      falsy body or an empty result list. */
  function LastValue(response: Response, default: Json): (r: Json)
    ensures response.Decoded? && WellShaped(response.content) ==> r == Sample(response.content)
    ensures !(response.Decoded? && WellShaped(response.content)) ==> r == default
  {
    match response
    case RequestFailed => default
    case NotJson => default
    case Decoded(content) =>
      if !Truthy(content) then default
      else
        match GetKey(content, "data")
        case None => default
        case Some(data) =>
          match GetKey(data, "result")
          case None => default
          case Some(result) =>
            match Len(result)
            case None => default
            case Some(n) =>
              if n == 0 then default
              else
                match GetIndex(result, 0)
                case None => default
                case Some(first) =>
                  match GetKey(first, "value")
                  case None => default
                  case Some(value) =>
                    match GetIndex(value, 1)
                    case None => default
                    case Some(sample) => sample
  }

  /** Python's `float(v)` on what LastValue returned: numbers and booleans
      convert, a string goes through `parse` (None when it is not a
      number), and None, lists and dicts raise TypeError. */
  function ToFloat(v: Json, parse: string -> Option<real>): (r: Option<real>)
    ensures v.Num? ==> r == Some(v.n)
    ensures v.Null? || v.Arr? || v.Obj? ==> r.None?
  {
    match v
    case Num(n) => Some(n)
    case Bool(b) => Some(if b then 1.0 else 0.0)
    case Str(s) => parse(s)
    case _ => None
  }

  // ---------------------------------------------------------------------
  // The indicator

  /** One row of the `indicators` table. The timestamp is the tick's unix
      time in seconds. */
  datatype IndicatorRecord = IndicatorRecord(timestamp: nat, name: string, slo: real, value: real, isBad: bool)

  /** The row the recorder itself writes: its only indicator, against the
      fixed objective, flagged bad exactly when the value is below it. */
  predicate Consistent(rec: IndicatorRecord)
  {
    rec.name == IndicatorName && rec.slo == SLO && rec.isBad == (rec.value < rec.slo)
  }

  /** The availability ratio: successes over attempts, and 1.0 when there
      were no attempts. */
  function Sli(success: real, total: real): real
  {
    if total > 0.0 then success / total else 1.0
  }

  /** With traffic the ratio times the attempts gives back the successes,
      and it lies in [0, 1] whenever the successes do not exceed the
      attempts. */
  lemma SliIsRatio(success: real, total: real)
    requires total > 0.0
    ensures Sli(success, total) * total == success
    ensures 0.0 <= success <= total ==> 0.0 <= Sli(success, total) <= 1.0
  {
  }

  /** The row a tick writes for the counter values it read. */
  function Evaluate(t: nat, success: real, total: real): (rec: IndicatorRecord)
    ensures Consistent(rec) && rec.timestamp == t
    ensures total <= 0.0 ==> rec.value == 1.0 && !rec.isBad
  {
    var sli := Sli(success, total);
    IndicatorRecord(t, IndicatorName, SLO, sli, sli < SLO)
  }

  /** With traffic, the row's value is the success ratio, and the row is bad
      exactly when fewer than 99.9% of the attempts succeeded. */
  lemma EvaluateWithTraffic(t: nat, success: real, total: real)
    requires total > 0.0
    ensures Evaluate(t, success, total).value * total == success
    ensures Evaluate(t, success, total).isBad <==> 1000.0 * success < 999.0 * total
  {
  }

  /** The comparison is strict: exactly 999 of 1000 meets the objective,
      998 of 1000 does not. */
  lemma ThresholdIsStrict(t: nat)
    ensures Evaluate(t, 999.0, 1000.0).value == 0.999 && !Evaluate(t, 999.0, 1000.0).isBad
    ensures Evaluate(t, 998.0, 1000.0).value == 0.998 && Evaluate(t, 998.0, 1000.0).isBad
  {
  }

  /** 500 successes of 1000 attempts give a bad row of value 0.5. */
  lemma HalfAvailable(t: nat)
    ensures Evaluate(t, 500.0, 1000.0) == IndicatorRecord(t, IndicatorName, 0.999, 0.5, true)
  {
  }

  // ---------------------------------------------------------------------
  // One tick and the loop

  /** The backend's answers for one tick at unix time `time`: to the query
      for oncall_web_probe_requests_success_total and to the query for
      oncall_web_probe_requests_total, both evaluated at `time`. */
  datatype TickInput = TickInput(time: nat, successResponse: Response, totalResponse: Response)

  /** The row one tick writes, or None when converting a sample to a number
      raises, which ends the recorder process before anything is written. */
  function TickRecord(tick: TickInput, parse: string -> Option<real>): (r: Option<IndicatorRecord>)
    ensures r.Some? ==> Consistent(r.value) && r.value.timestamp == tick.time
  {
    match ToFloat(LastValue(tick.successResponse, Num(0.0)), parse)
    case None => None
    case Some(success) =>
      match ToFloat(LastValue(tick.totalResponse, Num(0.0)), parse)
      case None => None
      case Some(total) => Some(Evaluate(tick.time, success, total))
  }

  /** What each tick writes, tick by tick. */
  function Outcomes(ticks: seq<TickInput>, parse: string -> Option<real>): (outs: seq<Option<IndicatorRecord>>)
    ensures |outs| == |ticks|
    ensures forall k :: 0 <= k < |ticks| ==> outs[k] == TickRecord(ticks[k], parse)
    decreases |ticks|
  {
    if ticks == [] then [] else [TickRecord(ticks[0], parse)] + Outcomes(ticks[1..], parse)
  }

  /** The rows written by a run whose ticks have the given outcomes: one per
      tick, up to the first tick that raised, which ends the process. */
  function RecordsOf(outs: seq<Option<IndicatorRecord>>): seq<IndicatorRecord>
    decreases |outs|
  {
    if outs == [] || outs[0].None? then [] else [outs[0].value] + RecordsOf(outs[1..])
  }

  /** The rows written by the loop over `ticks`. */
  function Records(ticks: seq<TickInput>, parse: string -> Option<real>): seq<IndicatorRecord>
  {
    RecordsOf(Outcomes(ticks, parse))
  }

  /** Up to the first tick that raised, the k-th row written is the k-th
      tick's own row. */
  lemma {:induction false} RecordsOfPrefix(outs: seq<Option<IndicatorRecord>>)
    ensures |RecordsOf(outs)| <= |outs|
    ensures forall k :: 0 <= k < |RecordsOf(outs)| ==> outs[k] == Some(RecordsOf(outs)[k])
    ensures |RecordsOf(outs)| < |outs| ==> outs[|RecordsOf(outs)|].None?
    decreases |outs|
  {
    if outs != [] && outs[0].Some? {
      RecordsOfPrefix(outs[1..]);
    }
  }

  /** The loop writes at most one row per tick, each consistent and stamped
      with its own tick's time, in tick order; it stops short only at a tick
      whose conversion raised. */
  lemma RecordsPerTick(ticks: seq<TickInput>, parse: string -> Option<real>)
    ensures |Records(ticks, parse)| <= |ticks|
    ensures forall k :: 0 <= k < |Records(ticks, parse)| ==>
      Some(Records(ticks, parse)[k]) == TickRecord(ticks[k], parse) &&
      Consistent(Records(ticks, parse)[k]) && Records(ticks, parse)[k].timestamp == ticks[k].time
    ensures |Records(ticks, parse)| < |ticks| ==> TickRecord(ticks[|Records(ticks, parse)|], parse).None?
  {
    RecordsOfPrefix(Outcomes(ticks, parse));
  }

  /** When every tick's samples convert, every tick writes exactly one row. */
  lemma RecordsOnePerTick(ticks: seq<TickInput>, parse: string -> Option<real>)
    requires forall k :: 0 <= k < |ticks| ==> TickRecord(ticks[k], parse).Some?
    ensures |Records(ticks, parse)| == |ticks|
    ensures forall k :: 0 <= k < |ticks| ==> Records(ticks, parse)[k] == TickRecord(ticks[k], parse).value
  {
    RecordsPerTick(ticks, parse);
  }

  /** With numeric samples no conversion can raise. */
  lemma NumericTickWrites(tick: TickInput, parse: string -> Option<real>)
    requires LastValue(tick.successResponse, Num(0.0)).Num?
    requires LastValue(tick.totalResponse, Num(0.0)).Num?
    ensures TickRecord(tick, parse).Some?
  {
  }

  /** The `indicators` table, append-only. */
  class IndicatorStore {
    var rows: seq<IndicatorRecord>

    /** Connecting and creating the schema if it does not exist yet leaves
        any rows from earlier runs in place. */
    constructor (existing: seq<IndicatorRecord>)
      ensures rows == existing
    {
      rows := existing;
    }

    /** INSERT of one row; earlier rows are untouched. */
    method SaveIndicator(name: string, slo: real, value: real, isBad: bool, time: nat)
      modifies this
      ensures rows == old(rows) + [IndicatorRecord(time, name, slo, value, isBad)]
      ensures |rows| == |old(rows)| + 1 && rows[..|old(rows)|] == old(rows)
    {
      rows := rows + [IndicatorRecord(time, name, slo, value, isBad)];
    }
  }

  /** The body of the recorder's loop. `ok` is false when converting a
      sample raised, which ends the process with the table unchanged. */
  method RecordTick(db: IndicatorStore, tick: TickInput, parse: string -> Option<real>) returns (ok: bool)
    modifies db
    ensures ok == TickRecord(tick, parse).Some?
    ensures ok ==> db.rows == old(db.rows) + [TickRecord(tick, parse).value]
    ensures !ok ==> db.rows == old(db.rows)
  {
    var success := ToFloat(LastValue(tick.successResponse, Num(0.0)), parse);
    if success.None? {
      return false;
    }
    var total := ToFloat(LastValue(tick.totalResponse, Num(0.0)), parse);
    if total.None? {
      return false;
    }
    var sli := if total.value > 0.0 then success.value / total.value else 1.0;
    var isBad := sli < SLO;
    db.SaveIndicator(IndicatorName, SLO, sli, isBad, tick.time);
    ok := true;
  }

  /** After a tick that wrote its row, the rows still to come are the ones
      from the next tick on. */
  lemma RecordsAdvance(start: seq<IndicatorRecord>, rows: seq<IndicatorRecord>, outs: seq<Option<IndicatorRecord>>, i: nat)
    requires i < |outs| && outs[i].Some?
    requires start + RecordsOf(outs) == rows + RecordsOf(outs[i..])
    ensures start + RecordsOf(outs) == (rows + [outs[i].value]) + RecordsOf(outs[i + 1..])
  {
  }

  /** A tick that raised writes nothing more, ever. */
  lemma RecordsStop(start: seq<IndicatorRecord>, rows: seq<IndicatorRecord>, outs: seq<Option<IndicatorRecord>>, i: nat)
    requires i <= |outs| && (i < |outs| ==> outs[i].None?)
    requires start + RecordsOf(outs) == rows + RecordsOf(outs[i..])
    ensures rows == start + RecordsOf(outs)
  {
  }

  /** The recorder's loop over `ticks`, stopping at the first tick that
      raises; the sleep between ticks is not modelled. */
  method RunRecorder(db: IndicatorStore, ticks: seq<TickInput>, parse: string -> Option<real>)
    modifies db
    ensures db.rows == old(db.rows) + Records(ticks, parse)
  {
    ghost var outs := Outcomes(ticks, parse);
    ghost var start := db.rows;
    assert outs[0..] == outs;
    var i := 0;
    while i < |ticks|
      invariant 0 <= i <= |ticks|
      invariant start + RecordsOf(outs) == db.rows + RecordsOf(outs[i..])
    {
      ghost var before := db.rows;
      var ok := RecordTick(db, ticks[i], parse);
      if !ok {
        RecordsStop(start, before, outs, i);
        return;
      }
      RecordsAdvance(start, before, outs, i);
      i := i + 1;
    }
    RecordsStop(start, db.rows, outs, i);
  }
}
