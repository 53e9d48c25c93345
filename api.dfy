/**
 * The `/api/data` view, in its newer form (with the temperature limit) and
 * its older form (without). Both read every monitor record ordered by
 * timestamp and turn the list into parallel arrays, one per column.
 */
module Api {
  import opened Wrappers
  import DateFormat
  import opened SystemMonitor

  /** The keys of the answers' top-level JSON objects. */
  datatype Key = Timestamps | CpuUsage | Ram | Disk | NetSent | NetRecv | Temperature | TemperatureLimit | ErrorKey
  {
    function Name(): string {
      match this
      case Timestamps => "timestamps"
      case CpuUsage => "cpu_usage"
      case Ram => "ram"
      case Disk => "disk"
      case NetSent => "net_sent"
      case NetRecv => "net_recv"
      case Temperature => "temperature"
      case TemperatureLimit => "temperature_limit"
      case ErrorKey => "error"
    }
  }

  /**
   * A JSON body: either the error object, or the seven arrays and, in the
   * newer view only, the temperature limit. The temperature entries are the
   * stored values, a number or the no-data string.
   */
  datatype Body =
    | ErrorBody(error: string)
    | DataBody(timestamps: seq<string>, cpuUsage: seq<real>, ram: seq<real>, disk: seq<real>,
               netSent: seq<real>, netRecv: seq<real>, temperature: seq<CpuTemp>, temperatureLimit: Option<real>)
  {
    /** The keys the JSON object has. */
    function Keys(): set<Key> {
      match this
      case ErrorBody(_) => {ErrorKey}
      case DataBody(_, _, _, _, _, _, _, limit) =>
        {Timestamps, CpuUsage, Ram, Disk, NetSent, NetRecv, Temperature} + (if limit.Some? then {TemperatureLimit} else {})
    }

    /** All seven arrays have the same length. */
    predicate Parallel(n: nat) {
      DataBody? && |timestamps| == n && |cpuUsage| == n && |ram| == n && |disk| == n
      && |netSent| == n && |netRecv| == n && |temperature| == n
    }
  }

  /** A Flask response: a JSON object and a status code. */
  datatype HttpResponse = HttpResponse(body: Body, status: int)

  const ColumnKeys: set<Key> := {Timestamps, CpuUsage, Ram, Disk, NetSent, NetRecv, Temperature}

  /** Records the database can hold: a Python `datetime` has a year between 1 and 9999. */
  predicate Storable(rs: seq<Record>) {
    forall i :: 0 <= i < |rs| ==> DateFormat.IsoFormat(rs[i].timestamp).Some?
  }

  predicate SortedByTimestamp(rs: seq<Record>) {
    forall i, j :: 0 <= i < j < |rs| ==> rs[i].timestamp <= rs[j].timestamp
  }

  /** Places one record after every record with a timestamp not later than its own. */
  function Insert(r: Record, rs: seq<Record>): (out: seq<Record>)
    requires SortedByTimestamp(rs)
    ensures SortedByTimestamp(out) && multiset(out) == multiset(rs) + multiset{r} && |out| == |rs| + 1
  {
    if rs == [] then [r]
    else if r.timestamp < rs[0].timestamp then [r] + rs
    else
      var tail := Insert(r, rs[1..]);
      assert rs == [rs[0]] + rs[1..];
      assert forall k :: 0 <= k < |tail| ==> rs[0].timestamp <= tail[k].timestamp by {
        forall k | 0 <= k < |tail| ensures rs[0].timestamp <= tail[k].timestamp {
          assert tail[k] in multiset(tail);
          assert tail[k] in multiset(rs[1..]) + multiset{r};
        }
      }
      [rs[0]] + tail
  }

  /** `order_by(Monitor.timestamp)`: the same records, in non-decreasing timestamp order. */
  function OrderByTimestamp(rs: seq<Record>): (out: seq<Record>)
    ensures SortedByTimestamp(out) && multiset(out) == multiset(rs) && |out| == |rs|
  {
    if rs == [] then []
    else
      var sorted := OrderByTimestamp(rs[..|rs| - 1]);
      assert rs == rs[..|rs| - 1] + [rs[|rs| - 1]];
      Insert(rs[|rs| - 1], sorted)
  }

  /** Ordering keeps the storable records storable. */
  lemma OrderKeepsStorable(rs: seq<Record>)
    requires Storable(rs)
    ensures Storable(OrderByTimestamp(rs))
  {
    var out := OrderByTimestamp(rs);
    forall i | 0 <= i < |out| ensures DateFormat.IsoFormat(out[i].timestamp).Some? {
      assert out[i] in multiset(rs);
      var j :| 0 <= j < |rs| && rs[j] == out[i];
    }
  }

  /** `timestamp.isoformat()`; a stored timestamp always has a rendering. */
  function TimestampText(t: int): string {
    match DateFormat.IsoFormat(t)
    case Some(s) => s
    case None => ""
  }

  /** The field each comprehension reads. */
  function StampOf(r: Record): string { TimestampText(r.timestamp) }
  function CpuOf(r: Record): real { r.cpu }
  function RamOf(r: Record): real { r.ram }
  function DiskOf(r: Record): real { r.disk }
  function NetSentOf(r: Record): real { r.netSent }
  function NetRecvOf(r: Record): real { r.netRecv }
  function TempOf(r: Record): CpuTemp { r.cpuTemp }

  /** One list comprehension over the ordered records: entry i comes from record i. */
  function Project<T>(f: Record -> T, rs: seq<Record>): (col: seq<T>)
    ensures |col| == |rs| && forall i :: 0 <= i < |rs| ==> col[i] == f(rs[i])
  {
    if rs == [] then [] else Project(f, rs[..|rs| - 1]) + [f(rs[|rs| - 1])]
  }

  /** The seven comprehensions over the ordered records, and the limit when there is one. */
  function Arrays(ordered: seq<Record>, limit: Option<real>): (b: Body)
    ensures b.Parallel(|ordered|) && b.temperatureLimit == limit
  {
    DataBody(Project(StampOf, ordered), Project(CpuOf, ordered), Project(RamOf, ordered), Project(DiskOf, ordered),
             Project(NetSentOf, ordered), Project(NetRecvOf, ordered), Project(TempOf, ordered), limit)
  }

  /** What reading the limit off a missing row raises (the attribute is named after the limits row's column). */
  const MissingLimitsText := "'NoneType' object has no attribute 'cpu_temp'"

  /** What naming the missing `Limits.timestamp` column raises. */
  const NoTimestampColumnText := "type object 'Limits' has no attribute 'timestamp'"

  /**
   * The newer `get_data` as its source reads: the limits query orders by
   * `Limits.timestamp`, a column the `Limits` model does not declare, so the
   * attribute lookup raises before any query runs and the `except` clause
   * answers every request.
   */
  function GetDataAsWritten(newestLimit: Option<real>, records: seq<Record>): (r: HttpResponse)
    ensures r.status == 500 && r.body.Keys() == {ErrorKey} && r.body.error == NoTimestampColumnText
  {
    HttpResponse(ErrorBody(NoTimestampColumnText), 500)
  }

  /**
   * The newer `get_data` with the limit lookup corrected. `newestLimit` is the
   * configured CPU temperature limit, if a row holding one exists: either the
   * newest limits row's `cpu_temp` or, as the package's tests expect, the
   * settings row's `cpu_alert_temp`. Without such a row, reading the limit
   * off `None` fails and the `except` clause answers 500.
   */
  function GetData(newestLimit: Option<real>, records: seq<Record>): (r: HttpResponse)
    ensures newestLimit.None? <==> r == HttpResponse(ErrorBody(MissingLimitsText), 500)
    ensures newestLimit.Some? ==>
      r.status == 200 && r.body.Keys() == ColumnKeys + {TemperatureLimit}
      && r.body.Parallel(|records|) && r.body.temperatureLimit == newestLimit
  {
    match newestLimit
    case None => HttpResponse(ErrorBody(MissingLimitsText), 500)
    case Some(_) => HttpResponse(Arrays(OrderByTimestamp(records), newestLimit), 200)
  }

  /** The older `get_data`: the same arrays, exactly the seven keys, always 200. */
  function GetDataV1(records: seq<Record>): (r: HttpResponse)
    ensures r.status == 200 && r.body.Keys() == ColumnKeys && r.body.Parallel(|records|)
  {
    HttpResponse(Arrays(OrderByTimestamp(records), None), 200)
  }

  /** Even with a limits row present the view as written answers 500, where the corrected view answers 200. */
  lemma GetDataAsWrittenAlwaysFails(limit: real, records: seq<Record>)
    ensures GetData(Some(limit), records).status == 200
    ensures var r := GetDataAsWritten(Some(limit), records);
      r.status == 500 && Timestamps !in r.body.Keys() && TemperatureLimit !in r.body.Keys()
  {
  }

  /**
   * Entry i of each array of a successful answer comes from the i-th record
   * in timestamp order.
   */
  lemma ArraysPointwise(ordered: seq<Record>, limit: Option<real>, i: nat)
    requires i < |ordered|
    ensures var b := Arrays(ordered, limit);
      b.timestamps[i] == TimestampText(ordered[i].timestamp) && b.cpuUsage[i] == ordered[i].cpu
      && b.ram[i] == ordered[i].ram && b.disk[i] == ordered[i].disk && b.netSent[i] == ordered[i].netSent
      && b.netRecv[i] == ordered[i].netRecv && b.temperature[i] == ordered[i].cpuTemp
  {
    var b := Arrays(ordered, limit);
    assert b.timestamps[i] == StampOf(ordered[i]);
  }

  /** In the newer view, the arrays are those of the ordered records and the limit is the limits row's. */
  lemma GetDataArrays(newestLimit: real, records: seq<Record>, i: nat)
    requires i < |records|
    ensures var b := GetData(Some(newestLimit), records).body;
      var r := OrderByTimestamp(records)[i];
      b.timestamps[i] == TimestampText(r.timestamp) && b.cpuUsage[i] == r.cpu && b.ram[i] == r.ram
      && b.disk[i] == r.disk && b.netSent[i] == r.netSent && b.netRecv[i] == r.netRecv
      && b.temperature[i] == r.cpuTemp
  {
    ArraysPointwise(OrderByTimestamp(records), Some(newestLimit), i);
  }

  /** The same for the older view. */
  lemma GetDataV1Arrays(records: seq<Record>, i: nat)
    requires i < |records|
    ensures var b := GetDataV1(records).body;
      var r := OrderByTimestamp(records)[i];
      b.timestamps[i] == TimestampText(r.timestamp) && b.cpuUsage[i] == r.cpu && b.ram[i] == r.ram
      && b.disk[i] == r.disk && b.netSent[i] == r.netSent && b.netRecv[i] == r.netRecv
      && b.temperature[i] == r.cpuTemp
  {
    ArraysPointwise(OrderByTimestamp(records), None, i);
  }

  /** The newer view's body is the older one's plus the one `temperature_limit` key. */
  lemma NewerViewExtendsOlder(newestLimit: real, records: seq<Record>)
    ensures var older := GetDataV1(records).body;
      older.DataBody? && GetData(Some(newestLimit), records).body == older.(temperatureLimit := Some(newestLimit))
  {
    var ordered := OrderByTimestamp(records);
    assert GetDataV1(records).body == Arrays(ordered, None);
    assert GetData(Some(newestLimit), records).body == Arrays(ordered, Some(newestLimit));
  }

  /** Reads a rendered timestamp back as seconds; anything unreadable reads as zero. */
  function ParseTimestamp(s: string): int {
    if |s| == 19 && 1 <= DateFormat.Parse(s).date.month <= 12 then DateFormat.EpochSeconds(DateFormat.Parse(s)) else 0
  }

  /** A rendered timestamp reads back as the second it renders. */
  lemma TimestampRoundTrip(t: int)
    requires DateFormat.IsoFormat(t).Some?
    ensures ParseTimestamp(TimestampText(t)) == t
  {
    DateFormat.IsoFormatRoundTrip(t);
  }

  /** Zips the arrays of a body back into records, when all seven are there and of one length. */
  function Unzip(b: Body): Option<seq<Record>> {
    if b.DataBody? && b.Parallel(|b.timestamps|) then
      Some(seq(|b.timestamps|, i requires 0 <= i < |b.timestamps| && b.Parallel(|b.timestamps|) =>
        Record(ParseTimestamp(b.timestamps[i]), b.cpuUsage[i], b.ram[i], b.disk[i], b.netSent[i], b.netRecv[i],
               b.temperature[i])))
    else None
  }

  /** The arrays of a storable record list zip back into it. */
  lemma ZipArrays(ordered: seq<Record>, limit: Option<real>)
    requires Storable(ordered)
    ensures Unzip(Arrays(ordered, limit)) == Some(ordered)
  {
    var b := Arrays(ordered, limit);
    var zipped := Unzip(b).value;
    forall i | 0 <= i < |ordered| ensures zipped[i] == ordered[i] {
      ArraysPointwise(ordered, limit, i);
      TimestampRoundTrip(ordered[i].timestamp);
    }
    assert zipped == ordered;
  }

  /** The arrays hold the whole ordered record list: zipping them back gives it exactly. */
  lemma ZipRoundTrip(records: seq<Record>)
    requires Storable(records)
    ensures Unzip(GetDataV1(records).body) == Some(OrderByTimestamp(records))
  {
    OrderKeepsStorable(records);
    ZipArrays(OrderByTimestamp(records), None);
  }

  /** The view's own check: one record and a limit of 80 give status 200 and one-entry arrays. */
  lemma OneRecordExample(r: Record)
    requires r == Record(1704110400, 25.5, 50.1, 30.2, 10.0, 15.5, Degrees(65.0))
    ensures var resp := GetData(Some(80.0), [r]);
      resp.status == 200 && resp.body.timestamps == ["2024-01-01T12:00:00"]
      && resp.body.cpuUsage == [25.5] && resp.body.temperature == [Degrees(65.0)]
      && resp.body.temperatureLimit == Some(80.0)
  {
    DateFormat.NoonJan2024();
    assert OrderByTimestamp([r]) == [r];
    ArraysPointwise([r], Some(80.0), 0);
  }
}
