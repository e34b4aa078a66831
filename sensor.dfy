/**
 One monitored sensor (`TemperatureSensor`): its configuration, its time
 series and the time of its latest check, with the operations of one
 iteration of its monitoring loop. The clock and the device file are passed
 in; messages go to a Telegram outbox.
 */
module Sensor {
  import opened Wrappers
  import opened W1Slave
  import opened Readings
  import opened Thresholds
  import opened Messages

  /** `now - timedelta(seconds=check_interval) > last_check`: strictly more than the interval has passed. */
  function CheckDue(now: Instant, checkInterval: int, lastCheck: Instant): (due: bool)
    ensures now == lastCheck + checkInterval * MicrosPerSecond ==> !due
    ensures checkInterval >= 0 && due ==> now > lastCheck
  {
    now - checkInterval * MicrosPerSecond > lastCheck
  }

  /** The reading a sample keeps: the first read, or the retry when the first one failed. */
  function RetryRead(first: DeviceFile, second: DeviceFile): (r: Option<int>)
    ensures r.Some? <==> ReadSensor(first).Some? || ReadSensor(second).Some?
    ensures ReadSensor(first).Some? ==> r == ReadSensor(first)
    ensures ReadSensor(first).None? ==> r == ReadSensor(second)
  {
    var temperature := ReadSensor(first);
    if temperature.Some? then temperature else ReadSensor(second)
  }

  /** The series after a sample: unchanged when no read succeeded, the value stored under dt otherwise. */
  function Record(s: Series, dt: Instant, reading: Option<int>): (r: Series)
    ensures reading.None? ==> r == s
    ensures reading.Some? ==> HasKey(r, dt)
    ensures reading.Some? && DistinctKeys(s) ==> DistinctKeys(r) && AsMap(r) == AsMap(s)[dt := reading.value]
  {
    if reading.None? then s
    else
      if DistinctKeys(s) then StoreUpdatesMap(s, dt, reading.value); Store(s, dt, reading.value)
      else Store(s, dt, reading.value)
  }

  /** When `self.data.truncate(before=start, after=end)` raises ValueError. */
  function TruncateRaises(s: Series, start: Instant, end: Instant): (raises: bool)
    ensures start > end ==> raises
    ensures StrictlyAscending(s) && start <= end ==> !raises
    ensures |s| <= 2 && start <= end ==> !raises
  {
    !SortedIndex(s) || start > end
  }

  /**
   The messages one check sends for its window w, in sending order: the
   "could not measure" message alone for an empty window, otherwise one
   warning per bound whose breach fraction exceeds 0.66.
   */
  function CheckMessages(name: string, checkPeriod: int, minValue: Option<int>, maxValue: Option<int>,
                         w: Series, periodStart: Instant): (ms: seq<Message>)
    ensures w == [] ==> ms == [CouldNotMeasure(name, periodStart)]
    ensures w != [] ==>
              |ms| == (if LowBreach(w, minValue) then 1 else 0) + (if HighBreach(w, maxValue) then 1 else 0)
    ensures (exists m :: m in ms && m.CouldNotMeasure?) <==> w == []
    ensures forall m :: m in ms && m.Warning? ==>
              m == Warning(name, checkPeriod, Mean(w), Degrees(w[|w| - 1].milli), minValue, maxValue)
  {
    if w == [] then
      var gap := [CouldNotMeasure(name, periodStart)];
      assert gap[0] in gap;
      gap
    else
      var warning := Warning(name, checkPeriod, Mean(w), Degrees(w[|w| - 1].milli), minValue, maxValue);
      (if LowBreach(w, minValue) then [warning] else []) + (if HighBreach(w, maxValue) then [warning] else [])
  }

  /**
   A window whose readings all lie below the minimum, with no maximum set,
   sends exactly one warning, whose mean and last value are that reading.
   */
  lemma AllBelowMinimumWarnsOnce(name: string, checkPeriod: int, minValue: int, w: Series, v: int,
                                 periodStart: Instant)
    requires w != []
    requires forall e :: e in w ==> e.milli == v
    requires v < minValue
    ensures CheckMessages(name, checkPeriod, Some(minValue), None, w, periodStart)
            == [Warning(name, checkPeriod, Degrees(v), Degrees(v), Some(minValue), None)]
  {
    CountBelowAll(w, minValue);
    MeanOfConstant(w, v);
    assert w[|w| - 1] in w;
  }

  /** A non-empty window that stays within both bounds sends nothing. */
  lemma WithinBoundsIsSilent(name: string, checkPeriod: int, minValue: Option<int>, maxValue: Option<int>,
                             w: Series, periodStart: Instant)
    requires w != []
    requires minValue.Some? ==> forall e :: e in w ==> e.milli >= minValue.value
    requires maxValue.Some? ==> forall e :: e in w ==> e.milli <= maxValue.value
    ensures CheckMessages(name, checkPeriod, minValue, maxValue, w, periodStart) == []
  {
    if minValue.Some? {
      CountBelowNone(w, minValue.value);
    }
    if maxValue.Some? {
      CountAboveNone(w, maxValue.value);
    }
  }

  /**
   Whether the k-th `send_telegram` call of a check raises: `requests.get`
   is called without a try, so a connection error propagates out of the check.
   */
  predicate ErrorAt(errors: seq<bool>, k: nat) {
    k < |errors| && errors[k]
  }

  /** How many of n sends in a row go out: the ones before the first send that raises. */
  function Delivered(n: nat, errors: seq<bool>): (f: nat)
    ensures f <= n
    ensures forall j :: 0 <= j < f ==> !ErrorAt(errors, j)
    ensures f < n ==> ErrorAt(errors, f)
  {
    if n == 0 then 0
    else
      var f := Delivered(n - 1, errors);
      if f < n - 1 || ErrorAt(errors, n - 1) then f else n
  }

  /** Without connection errors every message goes out; an error on the first send stops all of them. */
  lemma {:induction false} DeliveredBounds(n: nat, errors: seq<bool>)
    ensures (forall k :: 0 <= k < |errors| ==> !errors[k]) ==> Delivered(n, errors) == n
    ensures n > 0 && ErrorAt(errors, 0) ==> Delivered(n, errors) == 0
  {
    var f := Delivered(n, errors);
    if f < n {
      assert ErrorAt(errors, f);
    }
  }

  /**
   When both bounds are breached and the first send (the low warning) raises,
   the high warning is never sent, even if its send would have gone through.
   */
  lemma FailedLowSendSkipsHigh(name: string, checkPeriod: int, minValue: Option<int>, maxValue: Option<int>,
                               w: Series, periodStart: Instant, errors: seq<bool>)
    requires w != [] && LowBreach(w, minValue) && HighBreach(w, maxValue)
    requires ErrorAt(errors, 0) && !ErrorAt(errors, 1)
    ensures var ms := CheckMessages(name, checkPeriod, minValue, maxValue, w, periodStart);
            |ms| == 2 && Delivered(|ms|, errors) == 0
  {
    DeliveredBounds(2, errors);
  }

  /** The possible ends of `check_temperature`. */
  datatype CheckOutcome = Completed | TruncateFailed | SendFailed

  /** The telegram channel: every message whose `send_telegram` call returned, in order. */
  class Telegram {
    var sent: seq<Message>

    constructor ()
      ensures sent == []
    {
      sent := [];
    }

    /**
     One `send_telegram` call. A connection error raises (`raised`) and the
     message is not delivered; any HTTP status is only logged, so the call returns.
     */
    method Send(m: Message, connectionError: bool) returns (raised: bool)
      modifies this
      ensures raised == connectionError
      ensures sent == old(sent) + (if connectionError then [] else [m])
    {
      raised := connectionError;
      if !connectionError {
        sent := sent + [m];
      }
    }
  }

  class TemperatureSensor {
    const name: string
    const path: string
    const checkInterval: int  // seconds
    const checkPeriod: int    // seconds
    const minValue: Option<int>  // milli-degrees
    const maxValue: Option<int>  // milli-degrees

    var lastCheck: Instant
    var data: Series

    ghost predicate Valid()
      reads this
    {
      checkPeriod > checkInterval && DistinctKeys(data)
    }

    /** The messages a check at periodEnd sends when nothing raises: those of the window of the last checkPeriod seconds. */
    function Alerts(periodEnd: Instant): seq<Message>
      reads this
    {
      var periodStart := periodEnd - checkPeriod * MicrosPerSecond;
      CheckMessages(name, checkPeriod, minValue, maxValue, Window(data, periodStart, periodEnd), periodStart)
    }

    constructor (name: string, path: string, checkInterval: int, checkPeriod: int,
                 minValue: Option<int>, maxValue: Option<int>, now: Instant)
      requires checkPeriod > checkInterval
      ensures Valid()
      ensures this.name == name && this.path == path
      ensures this.checkInterval == checkInterval && this.checkPeriod == checkPeriod
      ensures this.minValue == minValue && this.maxValue == maxValue
      ensures lastCheck == now && data == []
    {
      this.name := name;
      this.path := path;
      this.checkInterval := checkInterval;
      this.checkPeriod := checkPeriod;
      this.minValue := minValue;
      this.maxValue := maxValue;
      lastCheck := now;
      data := [];
    }

    /** Construction with its assertion: no sensor unless the check period is longer than the check interval. */
    static method Create(name: string, path: string, checkInterval: int, checkPeriod: int,
                         minValue: Option<int>, maxValue: Option<int>, now: Instant)
      returns (sensor: TemperatureSensor?)
      ensures sensor == null <==> checkPeriod <= checkInterval
      ensures sensor != null ==> fresh(sensor) && sensor.Valid() && sensor.data == [] && sensor.lastCheck == now
      ensures sensor != null ==> sensor.checkInterval == checkInterval && sensor.checkPeriod == checkPeriod
      ensures sensor != null ==> sensor.minValue == minValue && sensor.maxValue == maxValue
    {
      if checkPeriod > checkInterval {
        sensor := new TemperatureSensor(name, path, checkInterval, checkPeriod, minValue, maxValue, now);
      } else {
        sensor := null;
      }
    }

    /**
     Sample with one retry: the second device read happens only when the first
     failed, and the series changes only when one of them succeeded.
     */
    method AddSensorReading(dt: Instant, first: DeviceFile, second: DeviceFile) returns (attempts: nat)
      requires Valid()
      modifies this`data
      ensures Valid()
      ensures attempts == if ReadSensor(first).Some? then 1 else 2
      ensures data == Record(old(data), dt, RetryRead(first, second))
      ensures RetryRead(first, second).None? ==> data == old(data)
      ensures RetryRead(first, second).Some? ==>
                AsMap(data) == AsMap(old(data))[dt := RetryRead(first, second).value]
    {
      var temperature := ReadSensor(first);
      attempts := 1;
      if temperature.None? {
        temperature := ReadSensor(second);
        attempts := 2;
      }
      if temperature.None? {
        return;
      }
      StoreUpdatesMap(data, dt, temperature.value);
      data := Store(data, dt, temperature.value);
    }

    /**
     One check at periodEnd: record the check time first, then cut out the
     closed window of the last checkPeriod seconds and send its messages. The
     ValueError of truncate ends the check before anything is sent; the k-th
     send raises when errors says so, and the messages after it are not sent.
     */
    method CheckTemperature(periodEnd: Instant, telegram: Telegram, errors: seq<bool>)
      returns (outcome: CheckOutcome)
      requires Valid()
      modifies this`lastCheck, telegram
      ensures Valid()
      ensures lastCheck == periodEnd && data == old(data)
      ensures outcome.TruncateFailed? <==> TruncateRaises(data, periodEnd - checkPeriod * MicrosPerSecond, periodEnd)
      ensures outcome.TruncateFailed? ==> telegram.sent == old(telegram.sent)
      ensures !outcome.TruncateFailed? ==>
                var ms := Alerts(periodEnd);
                (outcome.SendFailed? <==> Delivered(|ms|, errors) < |ms|) &&
                telegram.sent == old(telegram.sent) + ms[..Delivered(|ms|, errors)]
    {
      lastCheck := periodEnd;
      var periodStart := periodEnd - checkPeriod * MicrosPerSecond;
      if TruncateRaises(data, periodStart, periodEnd) {
        return TruncateFailed;
      }
      var interval := Window(data, periodStart, periodEnd);
      var failed := SendAlerts(interval, periodStart, telegram, errors);
      outcome := if failed then SendFailed else Completed;
    }

    /** The messages of a check for the extracted window, sent in order until a send raises. */
    method SendAlerts(interval: Series, periodStart: Instant, telegram: Telegram, errors: seq<bool>)
      returns (failed: bool)
      modifies telegram
      ensures var ms := CheckMessages(name, checkPeriod, minValue, maxValue, interval, periodStart);
              (failed <==> Delivered(|ms|, errors) < |ms|) &&
              telegram.sent == old(telegram.sent) + ms[..Delivered(|ms|, errors)]
    {
      ghost var ms := CheckMessages(name, checkPeriod, minValue, maxValue, interval, periodStart);
      ghost var before := telegram.sent;
      var latest := Latest(interval);
      if latest.None? {
        failed := telegram.Send(CouldNotMeasure(name, periodStart), ErrorAt(errors, 0));
        assert ms == [CouldNotMeasure(name, periodStart)];
        assert Delivered(1, errors) == if ErrorAt(errors, 0) then 0 else 1;
        assert ms[..0] == [] && ms[..1] == ms;
        return;
      }
      var warning := Warning(name, checkPeriod, Mean(interval), Degrees(latest.value.milli), minValue, maxValue);
      var attempts := 0;
      failed := false;
      ghost var tried: seq<Message> := [];
      if minValue.Some? && ExceedsFraction(CountBelow(interval, minValue.value), |interval|) {
        failed := telegram.Send(warning, ErrorAt(errors, 0));
        attempts := 1;
        tried := [warning];
        assert Delivered(1, errors) == if ErrorAt(errors, 0) then 0 else 1;
        assert tried[..0] == [] && tried[..1] == tried;
      }
      assert tried == if LowBreach(interval, minValue) then [warning] else [];
      assert attempts == |tried|;
      assert telegram.sent == before + tried[..Delivered(|tried|, errors)];
      assert failed <==> Delivered(|tried|, errors) < |tried|;
      if maxValue.Some? && ExceedsFraction(CountAbove(interval, maxValue.value), |interval|) {
        ghost var prev := tried;
        ghost var f := Delivered(|prev|, errors);
        if !failed {
          failed := telegram.Send(warning, ErrorAt(errors, attempts));
          assert (prev + [warning])[..f] == prev;
          assert (prev + [warning])[..f + 1] == prev + [warning];
        } else {
          assert (prev + [warning])[..f] == prev[..f];
        }
        tried := prev + [warning];
      }
      assert tried == ms;
    }

    /**
     One iteration of `monitor` at time now: sample, then check when due. A
     check that raises, in truncate or in a send, ends the loop (`stopped`).
     With a clock that moves forward and a non-negative check period the index
     stays sorted, so only a connection error can stop the loop.
     */
    method MonitorStep(now: Instant, first: DeviceFile, second: DeviceFile, telegram: Telegram, errors: seq<bool>)
      returns (checked: bool, stopped: bool)
      requires Valid()
      modifies this, telegram
      ensures Valid()
      ensures data == Record(old(data), now, RetryRead(first, second))
      ensures checked == CheckDue(now, checkInterval, old(lastCheck))
      ensures !checked ==> lastCheck == old(lastCheck) && telegram.sent == old(telegram.sent) && !stopped
      ensures checked ==> lastCheck == now
      ensures checked && TruncateRaises(data, now - checkPeriod * MicrosPerSecond, now) ==>
                stopped && telegram.sent == old(telegram.sent)
      ensures checked && !TruncateRaises(data, now - checkPeriod * MicrosPerSecond, now) ==>
                var ms := Alerts(now);
                (stopped <==> Delivered(|ms|, errors) < |ms|) &&
                telegram.sent == old(telegram.sent) + ms[..Delivered(|ms|, errors)]
      ensures StrictlyAscending(old(data)) && AllBefore(old(data), now) && checkPeriod >= 0 ==>
                StrictlyAscending(data) && AllBefore(data, now + 1) &&
                (stopped ==> exists k :: 0 <= k < |errors| && errors[k])
    {
      ghost var before := data;
      var attempts := AddSensorReading(now, first, second);
      if StrictlyAscending(before) && AllBefore(before, now) && RetryRead(first, second).Some? {
        StoreAfterAll(before, now, RetryRead(first, second).value);
      }
      checked := CheckDue(now, checkInterval, lastCheck);
      stopped := false;
      if checked {
        var outcome := CheckTemperature(now, telegram, errors);
        stopped := outcome != Completed;
        if outcome.SendFailed? {
          ghost var ms := Alerts(now);
          assert ErrorAt(errors, Delivered(|ms|, errors));
        }
      }
    }

    /**
     `remove_data_before` as written: truncate's result is discarded, so the
     series is left as it is; truncate still raises on an unsorted index.
     */
    method RemoveDataBefore(index: Instant) returns (raised: bool)
      requires Valid()
      ensures raised == !SortedIndex(data)
      ensures data == old(data)
    {
      raised := !SortedIndex(data);
      if !raised {
        var discarded := TruncateBefore(data, index);
      }
    }

    /** The evidently intended `remove_data_before`: drop the entries older than index. */
    method DropDataBefore(index: Instant) returns (raised: bool)
      requires Valid()
      modifies this`data
      ensures Valid()
      ensures raised == !SortedIndex(old(data))
      ensures raised ==> data == old(data)
      ensures !raised ==> data == TruncateBefore(old(data), index)
      ensures !raised ==> forall e :: e in data <==> e in old(data) && e.at >= index
    {
      raised := !SortedIndex(data);
      if raised {
        return;
      }
      TruncateKeepsDistinct(data, index);
      data := TruncateBefore(data, index);
    }
  }
}
