# On-call availability monitoring: prober and SLA recorder

This project models the two control loops that watch the on-call web service.

* **Prober** (`prober.dfy`). On every tick it increments the attempt counter
  `oncall_web_probe_requests_total` and calls `GET /healthcheck`.
  A status of exactly 200 increments `oncall_web_probe_requests_success_total` and sets the
  gauge `oncall_web_probe_healthy` to 1. Any other status, or a transport failure, sets the
  gauge to 0. A transport failure is logged and swallowed.
  The registry is a class whose three fields `Probe` updates in place.
  The pure function `Step` is its specification, and `Ticks` folds `Step` over a run of ticks.
* **SLA recorder** (`sla.dfy`). On every tick it reads both counters back from
  Prometheus with `lastValue` (default 0), computes `sli = success / total` (1.0 when
  `total` is not positive), flags the row bad when `sli < 0.999`, and appends one
  `oncall_web_availability_sli` row to the `indicators` table.
  `lastValue` is a total function over a JSON value (`pyjson.dfy`), written with Python's own
  subscript, `len` and truth-value rules, so every exception path falls back to the default.
  The table is a class holding an append-only `seq` of rows.
* `wrappers.dfy` holds the `Option` type used for Python operations that may raise.

Three points follow the code where a looser description of the system says otherwise:

* `lastValue` returns the raw sample (in practice a string such as `"0.5"`), not a number. The caller converts it with `float(...)`, and a sample that does not convert raises. That exception is not caught, so the recorder process ends without writing a row (`Sla.ToFloat`, `Sla.RecordTick`).
* `lastValue` does not look at the HTTP status. An error reply is treated like any other body and falls back to the default only because it lacks the expected shape.
* If `value` is a string rather than a list, `value[1]` is its second character, and that is what is returned (`Sla.Sample`).

Numbers are exact: counters are `nat`, and SLI arithmetic uses `real` with the objective
`0.999` written as an exact decimal.

## Model

| member | source | states |
|---|---|---|
| `Prober.Step` | prober/prober.py:29-40 | one probe adds 1 to the attempt counter whatever the outcome; the success counter grows by 1 exactly for status 200 and is otherwise unchanged; the gauge is 1 exactly for status 200 and 0 otherwise; `success <= total` and a 0/1 gauge are preserved |
| `Prober.ProbeMetrics.constructor` | prober/prober.py:9-11 | both counters and the gauge start at 0, a sound state |
| `Prober.ProbeMetrics.Probe` | prober/prober.py:29-40 | the registry's new values are `Step` of the old ones: the attempt is counted before the request, success and gauge follow the outcome, and a transport error returns normally with the gauge at 0 |
| `Prober.RunProber` | prober/prober.py:47-49 | after the loop the registry equals `Ticks` of its old values; the attempt counter grew by the number of ticks and the success counter by the number of 200 responses; soundness is kept |
| `Prober.TicksCount` | prober/prober.py:30-34 | over any run, total grows by the number of ticks and success by the number of status-200 outcomes |
| `Prober.TicksMonotonic` | prober/prober.py:30-34 | neither counter ever decreases, and total strictly grows over a non-empty run |
| `Prober.TicksStaySound` | prober/prober.py:30-40 | if `success <= total` and the gauge is 0 or 1 before a run, both still hold after it |
| `Prober.TicksHealthyIsLast` | prober/prober.py:33-40 | after a non-empty run the gauge reflects only the last probe's outcome |
| `Prober.FailingTicks` | prober/prober.py:36-40 | after n ticks with no 200 response, total grew by n, success is unchanged, and the gauge is 0 if n > 0 |
| `Prober.UnreachableRun` | prober/prober.py:38-40 | while every probe fails with a transport error, after each tick j the gauge is 0, total has grown by j and success is unchanged |
| `Sla.LastValue` | sla/sla.py:65-78 | yields `data.result[0].value[1]` exactly when the decoded body has that shape; yields the default for a failed request, an undecodable body, a falsy body, an empty result list and every other shape |
| `Sla.ToFloat` | sla/sla.py:101-102 | `float(...)` of a sample: a number is itself; `None`, a list or a dict raise |
| `Sla.SliIsRatio` | sla/sla.py:103 | with traffic, `sli * total == success`, and the ratio lies in [0, 1] when `0 <= success <= total` |
| `Sla.Evaluate` | sla/sla.py:103-112 | the row is named `oncall_web_availability_sli`, carries slo 0.999 and the tick's time, and is bad exactly when its value is below its slo; with no traffic its value is 1.0 and it is not bad, whatever `success` is |
| `Sla.EvaluateWithTraffic` | sla/sla.py:103-104 | with traffic, the row's value times total is success, and the row is bad exactly when `1000 * success < 999 * total` |
| `Sla.ThresholdIsStrict` | sla/sla.py:104 | 999 of 1000 gives value 0.999 and is not bad; 998 of 1000 gives 0.998 and is bad |
| `Sla.HalfAvailable` | sla/sla.py:101-112 | 500 of 1000 gives the bad row with value 0.5, slo 0.999 and the tick's time |
| `Sla.TickRecord` | sla/sla.py:96-112 | a tick that writes a row writes a consistent one stamped with its own time |
| `Sla.NumericTickWrites` | sla/sla.py:101-102 | when both samples are numbers, the tick always writes its row |
| `Sla.RecordsPerTick` | sla/sla.py:94-116 | the loop writes at most one row per tick, in tick order: the k-th row is the k-th tick's, consistent and stamped with its time; the rows stop short only at a tick whose conversion raised |
| `Sla.RecordsOnePerTick` | sla/sla.py:94-116 | when no tick's conversion raises, there is exactly one row per tick, the k-th row being the k-th tick's |
| `Sla.IndicatorStore.constructor` | sla/sla.py:24-52 | opening the store with `IF NOT EXISTS` schema creation keeps the rows already in the table |
| `Sla.IndicatorStore.SaveIndicator` | sla/sla.py:54-59 | appends exactly one row with the given fields; earlier rows are unchanged |
| `Sla.RecordTick` | sla/sla.py:95-112 | one loop body: if both conversions succeed, exactly one row, `TickRecord`'s, is appended; if either raises, the table is unchanged |
| `Sla.RunRecorder` | sla/sla.py:94-116 | the table after the loop is the old table followed by `Records` of the ticks |

## Left out

- The HTTP calls (`requests.get`), `response.json()`, the exporter's `start_http_server` and the MySQL connection are not modelled as code. The prober takes each request's outcome as an `Outcome` value. The recorder takes each query's outcome as a `Response` value.
- The query URL, its parameters and the 10-second timeouts are not modelled. They only shape the outcome values.
- `Sla.ToFloat`: parsing a string sample (the usual Prometheus form) is a parameter `parse`, not a model of Python's float grammar. NaN and infinities, which Python accepts, have no `real` counterpart.
- IEEE rounding of `success / total` and the `float(4)` column precision are not modelled: the ratio is exact.
- Configuration classes, logging, the SIGTERM handlers and `sys.exit` are not modelled. They are process plumbing.
- `time.time`, `time.sleep` and `strftime` are not modelled. A tick's time is a `nat` of unix seconds; the formatted DATETIME string and the sleep between ticks are left out.
- Schema DDL text (database, table, the two indexes) is not modelled; the store is only its rows. A second `ALTER TABLE ... ADD INDEX` on each start adds a duplicate index in MySQL; that is not captured.
- `Sla.IndicatorStore.SaveIndicator`: the defaults `is_bad=False` and `time=None` are not modelled, because the recorder always passes both. An insert that fails (dropped connection) is also not modelled; in the source it ends the process.
- The unbounded `while True` loops are modelled over a finite sequence of ticks. Concurrent reads of the registry by the exporter thread are not modelled.
- Prometheus counters are floats; they are `nat` here, since they only ever grow by 1.
