/**
 * The sampler and its 24-hour retention store: `check_resources` reads one
 * sample, appends it (`write_to_db`), evicts everything older than a day
 * (`remove_old_data`) and, on a hot CPU, runs the alert fan-out
 * (`sent_user_alert`). Host readings and the clock are inputs.
 */
module SystemMonitor {
  import opened Wrappers
  import opened Effects
  import opened UserModel
  import Telegram
  import EmailUtils

  const SecondsPerDay := 86400
  const AlertThreshold: real := 85.0
  const AlertText := "cpu_temp >= 85"
  /** The sensor label the sampler looks for. */
  const CoreTempLabel := "coretemp"

  datatype SensorReading = SensorReading(name: string, current: real)

  /** A CPU temperature, or the "Brak danych" ("no data") string the sampler stores when there is none. */
  datatype CpuTemp = Degrees(celsius: real) | NoData

  /** `psutil.sensors_temperatures()`: a reading list per sensor family. */
  type Sensors = map<string, seq<SensorReading>>

  /** The first `coretemp` reading, or the no-data sentinel when that family is absent or empty. */
  function ExtractCpuTemp(sensors: Sensors): (t: CpuTemp)
    ensures t.Degrees? <==> CoreTempLabel in sensors && |sensors[CoreTempLabel]| > 0
    ensures t.Degrees? ==> t.celsius == sensors[CoreTempLabel][0].current
  {
    if CoreTempLabel in sensors && |sensors[CoreTempLabel]| > 0 then Degrees(sensors[CoreTempLabel][0].current)
    else NoData
  }

  /** Other sensor families never influence the reading. */
  lemma ExtractCpuTempIgnoresOthers(sensors: Sensors, family: string, readings: seq<SensorReading>)
    requires family != CoreTempLabel
    ensures ExtractCpuTemp(sensors[family := readings]) == ExtractCpuTemp(sensors)
  {
  }

  /** `bytes / (1024 * 1024)`. */
  function ToMegabytes(bytes: nat): (mb: real)
    ensures mb >= 0.0
  {
    bytes as real / 1048576.0
  }

  /** Converting back gives the byte count, so whole mebibytes convert exactly. */
  lemma MegabytesRoundTrip(bytes: nat)
    ensures ToMegabytes(bytes) * 1048576.0 == bytes as real
  {
  }

  lemma WholeMegabytes(n: nat)
    ensures ToMegabytes(n * 1048576) == n as real
  {
    MegabytesRoundTrip(n * 1048576);
  }

  /** The two network counters of the sampler scenario in the package's tests: 10 and 20 MiB. */
  lemma TenAndTwentyMegabytes()
    ensures ToMegabytes(10 * 1048576) == 10.0 && ToMegabytes(20 * 1048576) == 20.0
  {
    WholeMegabytes(10);
    WholeMegabytes(20);
  }

  /** What the host reports in one sampling step. */
  datatype Sample = Sample(cpu: real, ram: real, disk: real, bytesSent: nat, bytesRecv: nat, sensors: Sensors)

  /** One `Monitor` row; the timestamp is in seconds. */
  datatype Record = Record(timestamp: int, cpu: real, ram: real, disk: real, netSent: real, netRecv: real, cpuTemp: CpuTemp)

  /** The `data` list `check_resources` builds and hands to `write_to_db`. */
  function RecordOf(s: Sample, now: int): (r: Record)
    ensures r.timestamp == now && r.cpu == s.cpu && r.ram == s.ram && r.disk == s.disk
    ensures r.netSent * 1048576.0 == s.bytesSent as real && r.netRecv * 1048576.0 == s.bytesRecv as real
    ensures r.cpuTemp == ExtractCpuTemp(s.sensors)
  {
    MegabytesRoundTrip(s.bytesSent);
    MegabytesRoundTrip(s.bytesRecv);
    Record(now, s.cpu, s.ram, s.disk, ToMegabytes(s.bytesSent), ToMegabytes(s.bytesRecv), ExtractCpuTemp(s.sensors))
  }

  /** The records the eviction keeps: those at or after the cutoff, in their order. */
  function Recent(rs: seq<Record>, cutoff: int): (kept: seq<Record>)
    ensures |kept| <= |rs|
    ensures forall i :: 0 <= i < |kept| ==> kept[i].timestamp >= cutoff
    ensures forall r :: r in kept ==> r in rs
  {
    if rs == [] then []
    else Recent(rs[..|rs| - 1], cutoff) + (if rs[|rs| - 1].timestamp >= cutoff then [rs[|rs| - 1]] else [])
  }

  /** Every record at or after the cutoff is kept (the comparison is strict for removal). */
  lemma {:induction false} RecentKeepsFresh(rs: seq<Record>, cutoff: int, i: nat)
    requires i < |rs| && rs[i].timestamp >= cutoff
    ensures rs[i] in Recent(rs, cutoff)
  {
    var n := |rs| - 1;
    if i < n {
      RecentKeepsFresh(rs[..n], cutoff, i);
    }
  }

  /** Eviction only removes: its result is a sub-multiset of the store. */
  lemma {:induction false} RecentSubMultiset(rs: seq<Record>, cutoff: int)
    ensures multiset(Recent(rs, cutoff)) <= multiset(rs)
  {
    if rs != [] {
      var n := |rs| - 1;
      RecentSubMultiset(rs[..n], cutoff);
      assert rs == rs[..n] + [rs[n]];
    }
  }

  /** Evicting twice is evicting once. */
  lemma RecentIdempotent(rs: seq<Record>, cutoff: int)
    ensures Recent(Recent(rs, cutoff), cutoff) == Recent(rs, cutoff)
  {
    RecentOfFresh(Recent(rs, cutoff), cutoff);
  }

  /** A store holding only fresh records is left as it is. */
  lemma {:induction false} RecentOfFresh(rs: seq<Record>, cutoff: int)
    requires forall i :: 0 <= i < |rs| ==> rs[i].timestamp >= cutoff
    ensures Recent(rs, cutoff) == rs
  {
    if rs != [] {
      var n := |rs| - 1;
      RecentOfFresh(rs[..n], cutoff);
      assert rs == rs[..n] + [rs[n]];
    }
  }

  lemma {:induction false} RecentAppend(rs: seq<Record>, ts: seq<Record>, cutoff: int)
    ensures Recent(rs + ts, cutoff) == Recent(rs, cutoff) + Recent(ts, cutoff)
    decreases |ts|
  {
    if ts == [] {
      assert rs + ts == rs;
    } else {
      var n := |ts| - 1;
      assert (rs + ts)[..|rs + ts| - 1] == rs + ts[..n];
      RecentAppend(rs, ts[..n], cutoff);
    }
  }

  lemma SplitAt<T>(s: seq<T>, i: nat)
    requires i < |s|
    ensures s == s[..i] + [s[i]] + s[i + 1..]
  {
  }

  lemma RecentStep(rs: seq<Record>, j: nat, cutoff: int)
    requires j < |rs|
    ensures Recent(rs[..j + 1], cutoff) == Recent(rs[..j], cutoff) + (if rs[j].timestamp >= cutoff then [rs[j]] else [])
  {
    assert rs[..j + 1][..j] == rs[..j];
  }

  /** A record written at `now` survives the eviction that follows it, as the newest record. */
  lemma NewestSurvives(rs: seq<Record>, r: Record, now: int)
    requires r.timestamp == now
    ensures var kept := Recent(rs + [r], now - 86400); |kept| >= 1 && kept[|kept| - 1] == r
  {
    assert (rs + [r])[..|rs|] == rs;
  }

  /** The store's invariant after every eviction: nothing older than a day before `now`. */
  predicate Window(rs: seq<Record>, now: int) {
    forall i :: 0 <= i < |rs| ==> rs[i].timestamp >= now - 86400
  }

  /** An alert fires only on a numeric temperature of at least 85 degrees. */
  predicate Alerting(t: CpuTemp) {
    t.Degrees? && t.celsius >= AlertThreshold
  }

  /** The tuple `check_resources` returns. */
  datatype Reading = Reading(cpu: real, ram: real, disk: real, netSent: real, netRecv: real, cpuTemp: CpuTemp)

  function ReadingOf(r: Record): Reading {
    Reading(r.cpu, r.ram, r.disk, r.netSent, r.netRecv, r.cpuTemp)
  }

  /** What comparing the sentinel string with 85 raises. */
  const ComparisonText := "'>=' not supported between instances of 'str' and 'int'"

  function SentinelComparison(): Exception {
    Exception(TypeErrorClass, ComparisonText)
  }

  /**
   * `sent_user_alert(title, msg)`: the Telegram fan-out first, then the
   * e-mail fan-out, each run once. The e-mail part reads no `last_alert_time`,
   * so it sees the same trace whatever the Telegram part stamped.
   */
  method SentUserAlert(title: string, msg: string, users: seq<User>, hrs: Option<int>, now: int,
                       telegramSent: seq<bool>, emailSent: seq<bool>) returns (events: seq<Event>)
    requires Telegram.Distinct(users) && |telegramSent| == |users| && |emailSent| == |users|
    modifies users
    ensures hrs.Some? ==> forall k :: 0 <= k < |users| ==>
      users[k].Row() == Telegram.NotifyOne(old(users[k].Row()), hrs.value, now, telegramSent[k], msg).0
    ensures hrs.None? ==> RowsOf(users) == old(RowsOf(users))
    ensures events == Telegram.FanoutEvents(old(RowsOf(users)), hrs, now, telegramSent, msg)
                      + EmailUtils.ReceiverAll(old(RowsOf(users)), title, msg, emailSent)
  {
    ghost var rows := RowsOf(users);
    var tel := Telegram.FilterUsersAndSendAlertTelegram(users, hrs, now, telegramSent, msg);
    ghost var rows' := RowsOf(users);
    var mail := EmailUtils.FilterUsersAndSendAlertEmail(users, title, msg, emailSent, None);
    if hrs.Some? {
      forall k | 0 <= k < |rows|
        ensures rows'[k] == rows[k].(lastAlertTime := rows'[k].lastAlertTime)
      {
        assert rows'[k] == Telegram.NotifyOne(rows[k], hrs.value, now, telegramSent[k], msg).0;
      }
      EmailUtils.ReceiverAllIgnoresAlertTime(rows, rows', title, msg, emailSent);
    }
    events := tel + mail;
  }

  /** The info lines of the two steps of a sampling round. */
  const WrittenLine := "write_to_db()"
  const CheckedLine := "check_resources()"

  class MonitorTable {
    var records: seq<Record>

    constructor ()
      ensures records == []
    {
      records := [];
    }

    /** `write_to_db(data)`: appends exactly one record. */
    method WriteToDb(r: Record) returns (events: seq<Event>)
      modifies this
      ensures records == old(records) + [r] && events == [Info(WrittenLine)]
    {
      records := records + [r];
      events := [Info(WrittenLine)];
    }

    /** `remove_old_data()`: deletes, one by one, every record strictly older than a day before `now`. */
    method RemoveOldData(now: int)
      modifies this
      ensures records == Recent(old(records), now - 86400)
      ensures Window(records, now)
    {
      var cutoff := now - 86400;
      ghost var orig := records;
      var i := 0;
      ghost var j := 0;
      while i < |records|
        invariant 0 <= j <= |orig| && i == |Recent(orig[..j], cutoff)|
        invariant records == Recent(orig[..j], cutoff) + orig[j..]
        decreases |records| - i
      {
        ghost var kept := Recent(orig[..j], cutoff);
        assert records[..i] == kept && records[i + 1..] == orig[j + 1..] && records[i] == orig[j];
        RecentStep(orig, j, cutoff);
        if records[i].timestamp < cutoff {
          records := records[..i] + records[i + 1..];
        } else {
          SplitAt(records, i);
          i := i + 1;
        }
        j := j + 1;
      }
      assert orig[..j] == orig;
    }

    /**
     * `check_resources()`. The new record is written and the store evicted
     * before anything else can fail; a missing temperature then makes the
     * threshold comparison raise, and no alert is sent.
     */
    method CheckResources(s: Sample, now: int, users: seq<User>, hrs: Option<int>,
                          telegramSent: seq<bool>, emailSent: seq<bool>)
      returns (result: Attempt<Reading>, events: seq<Event>)
      requires Telegram.Distinct(users) && |telegramSent| == |users| && |emailSent| == |users|
      modifies this, users
      ensures records == Recent(old(records) + [RecordOf(s, now)], now - 86400)
      ensures Window(records, now) && |records| >= 1 && records[|records| - 1] == RecordOf(s, now)
      ensures var tail := Evaluate(RecordOf(s, now), old(RowsOf(users)), hrs, now, telegramSent, emailSent);
        result == tail.0 && events == [Info(WrittenLine), Info(CheckedLine)] + tail.1
      ensures Alerting(RecordOf(s, now).cpuTemp) && hrs.Some? ==> forall k :: 0 <= k < |users| ==>
        users[k].Row() == Telegram.NotifyOne(old(users[k].Row()), hrs.value, now, telegramSent[k], AlertText).0
      ensures !(Alerting(RecordOf(s, now).cpuTemp) && hrs.Some?) ==> RowsOf(users) == old(RowsOf(users))
    {
      var record := RecordOf(s, now);
      ghost var rows := RowsOf(users);
      var stored := Store(record);
      assert RowsOf(users) == rows by {
        forall k | 0 <= k < |users| ensures RowsOf(users)[k] == rows[k] {
          assert users[k].Row() == old(users[k].Row());
        }
      }
      ghost var stores := records;
      var tail;
      result, tail := CheckThreshold(record, users, hrs, now, telegramSent, emailSent);
      assert records == stores;
      events := stored + tail;
    }

    /** The first half of `check_resources`: write the new record, evict, log. */
    method Store(record: Record) returns (events: seq<Event>)
      modifies this
      ensures records == Recent(old(records) + [record], record.timestamp - 86400)
      ensures Window(records, record.timestamp) && |records| >= 1 && records[|records| - 1] == record
      ensures events == [Info(WrittenLine), Info(CheckedLine)]
    {
      var written := WriteToDb(record);
      RemoveOldData(record.timestamp);
      NewestSurvives(old(records), record, record.timestamp);
      events := written + [Info(CheckedLine)];
    }
  }

  /**
   * What `check_resources` does after the store is updated: the comparison
   * with the threshold, and the alert when it holds.
   */
  function Evaluate(record: Record, rows: seq<UserRow>, hrs: Option<int>, now: int,
                    telegramSent: seq<bool>, emailSent: seq<bool>): (r: (Attempt<Reading>, seq<Event>))
    requires |telegramSent| == |rows| && |emailSent| == |rows|
    ensures record.cpuTemp.NoData? <==> r.0 == Raises(SentinelComparison())
    ensures record.cpuTemp.Degrees? <==> r.0 == Returns(ReadingOf(record))
    ensures !Alerting(record.cpuTemp) ==> r.1 == []
    ensures Alerting(record.cpuTemp) ==> Count(r.1, EmailKind) == EmailUtils.ReceiverCount(rows)
    ensures Alerting(record.cpuTemp) && hrs.Some? ==>
      Count(r.1, TelegramKind) == Telegram.AttemptCount(rows, hrs.value, now)
      && Count(r.1, AdminKind) == Telegram.FailureCount(rows, hrs.value, now, telegramSent)
                                  + EmailUtils.ReceiverFailures(rows, emailSent)
    ensures Alerting(record.cpuTemp) && hrs.None? ==>
      Count(r.1, AdminKind) == 1 + EmailUtils.ReceiverFailures(rows, emailSent)
  {
    if record.cpuTemp.NoData? then (Raises(SentinelComparison()), [])
    else if record.cpuTemp.celsius >= AlertThreshold then
      var tel := Telegram.FanoutEvents(rows, hrs, now, telegramSent, AlertText);
      var mail := EmailUtils.ReceiverAll(rows, AlertText, AlertText, emailSent);
      EmailUtils.ReceiverAllCounts(rows, AlertText, AlertText, emailSent);
      if hrs.Some? then
        Telegram.NotifyAllCounts(rows, hrs.value, now, telegramSent, AlertText);
        CountAppend(tel, mail, EmailKind);
        CountAppend(tel, mail, TelegramKind);
        CountAppend(tel, mail, AdminKind);
        (Returns(ReadingOf(record)), tel + mail)
      else
        Telegram.FanoutWithoutSettings(rows, now, telegramSent, AlertText);
        CountAppend(tel, mail, EmailKind);
        CountAppend(tel, mail, AdminKind);
        (Returns(ReadingOf(record)), tel + mail)
    else (Returns(ReadingOf(record)), [])
  }

  /** The threshold comparison and the alert, over the user objects. */
  method CheckThreshold(record: Record, users: seq<User>, hrs: Option<int>, now: int,
                        telegramSent: seq<bool>, emailSent: seq<bool>)
    returns (result: Attempt<Reading>, events: seq<Event>)
    requires Telegram.Distinct(users) && |telegramSent| == |users| && |emailSent| == |users|
    modifies users
    ensures (result, events) == Evaluate(record, old(RowsOf(users)), hrs, now, telegramSent, emailSent)
    ensures Alerting(record.cpuTemp) && hrs.Some? ==> forall k :: 0 <= k < |users| ==>
      users[k].Row() == Telegram.NotifyOne(old(users[k].Row()), hrs.value, now, telegramSent[k], AlertText).0
    ensures !(Alerting(record.cpuTemp) && hrs.Some?) ==> RowsOf(users) == old(RowsOf(users))
  {
    if record.cpuTemp.NoData? {
      return Raises(SentinelComparison()), [];
    }
    events := [];
    if record.cpuTemp.celsius >= AlertThreshold {
      events := SentUserAlert(AlertText, AlertText, users, hrs, now, telegramSent, emailSent);
    }
    result := Returns(ReadingOf(record));
  }
}
