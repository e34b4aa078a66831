/**
 A sensor's time series (`self.data`, a pandas Series of temperatures indexed
 by datetime), kept as its entries in index order, and the operations the
 sensor performs on it: storing a sample under its timestamp, cutting out the
 closed window of a check, and the index-order requirement of pandas' truncate.
 */
module Readings {
  import opened Wrappers

  /** A point in time in microseconds, the resolution of Python's datetime. */
  type Instant = int

  const MicrosPerSecond: int := 1_000_000

  /** One sample: its timestamp and its temperature in milli-degrees Celsius. */
  datatype Entry = Entry(at: Instant, milli: int)

  /** The entries of the Series in index order. */
  type Series = seq<Entry>

  predicate HasKey(s: Series, t: Instant) {
    exists i :: 0 <= i < |s| && s[i].at == t
  }

  predicate DistinctKeys(s: Series) {
    forall i, j :: 0 <= i < j < |s| ==> s[i].at != s[j].at
  }

  /** The Series as a dictionary from timestamp to value. */
  function AsMap(s: Series): map<Instant, int>
    requires DistinctKeys(s)
  {
    map i | 0 <= i < |s| :: s[i].at := s[i].milli
  }

  /**
   `series[t] = v`: a label already in the index keeps its position and gets
   the new value; a new label is appended at the end.
   */
  function Store(s: Series, t: Instant, v: int): (r: Series)
    ensures |r| == if HasKey(s, t) then |s| else |s| + 1
    ensures !HasKey(s, t) ==> r[..|s|] == s && r[|s|] == Entry(t, v)
    ensures HasKey(s, t) ==>
              forall i :: 0 <= i < |s| ==> r[i].at == s[i].at && r[i] == (if s[i].at == t then Entry(t, v) else s[i])
  {
    if HasKey(s, t) then seq(|s|, i requires 0 <= i < |s| => if s[i].at == t then Entry(t, v) else s[i])
    else s + [Entry(t, v)]
  }

  lemma AsMapAt(s: Series, i: int)
    requires DistinctKeys(s) && 0 <= i < |s|
    ensures s[i].at in AsMap(s) && AsMap(s)[s[i].at] == s[i].milli
  {
  }

  lemma AsMapKey(s: Series, k: Instant)
    requires DistinctKeys(s) && k in AsMap(s)
    ensures exists i :: 0 <= i < |s| && s[i].at == k
  {
  }

  /** Storing under a timestamp is a dictionary update: that key gets the value, every other key is untouched. */
  lemma StoreUpdatesMap(s: Series, t: Instant, v: int)
    requires DistinctKeys(s)
    ensures DistinctKeys(Store(s, t, v))
    ensures AsMap(Store(s, t, v)) == AsMap(s)[t := v]
  {
    if HasKey(s, t) {
      OverwriteUpdatesMap(s, t, v);
    } else {
      AppendUpdatesMap(s, t, v);
    }
  }

  lemma OverwriteUpdatesMap(s: Series, t: Instant, v: int)
    requires DistinctKeys(s) && HasKey(s, t)
    ensures DistinctKeys(Store(s, t, v))
    ensures AsMap(Store(s, t, v)) == AsMap(s)[t := v]
  {
    var r := Store(s, t, v);
    assert forall i :: 0 <= i < |s| ==> r[i].at == s[i].at;
    var m, m' := AsMap(r), AsMap(s)[t := v];
    forall k | k in m ensures k in m' && m[k] == m'[k] {
      AsMapKey(r, k);
      var i :| 0 <= i < |r| && r[i].at == k;
      AsMapAt(r, i);
      AsMapAt(s, i);
    }
    forall k | k in m' ensures k in m {
      if k == t {
        var i :| 0 <= i < |s| && s[i].at == t;
        AsMapAt(r, i);
      } else {
        AsMapKey(s, k);
        var i :| 0 <= i < |s| && s[i].at == k;
        AsMapAt(r, i);
      }
    }
  }

  lemma AppendUpdatesMap(s: Series, t: Instant, v: int)
    requires DistinctKeys(s) && !HasKey(s, t)
    ensures DistinctKeys(Store(s, t, v))
    ensures AsMap(Store(s, t, v)) == AsMap(s)[t := v]
  {
    var r := Store(s, t, v);
    assert r == s + [Entry(t, v)];
    var m, m' := AsMap(r), AsMap(s)[t := v];
    forall k | k in m ensures k in m' && m[k] == m'[k] {
      AsMapKey(r, k);
      var i :| 0 <= i < |r| && r[i].at == k;
      AsMapAt(r, i);
      if i < |s| {
        AsMapAt(s, i);
      }
    }
    forall k | k in m' ensures k in m {
      if k == t {
        AsMapAt(r, |s|);
      } else {
        AsMapKey(s, k);
        var i :| 0 <= i < |s| && s[i].at == k;
        AsMapAt(r, i);
      }
    }
  }

  /** `series.truncate(before=start, after=end)` on a sorted index: the entries with start <= at <= end, in index order. */
  function Window(s: Series, start: Instant, end: Instant): (w: Series)
    ensures |w| <= |s|
    ensures forall e :: e in w <==> e in s && start <= e.at <= end
  {
    if s == [] then []
    else (if start <= s[0].at <= end then [s[0]] else []) + Window(s[1..], start, end)
  }

  /** The window keeps index order: the window of a concatenation is the concatenation of the windows. */
  lemma {:induction false} WindowConcat(x: Series, y: Series, start: Instant, end: Instant)
    ensures Window(x + y, start, end) == Window(x, start, end) + Window(y, start, end)
  {
    if x != [] {
      assert (x + y)[1..] == x[1..] + y;
      WindowConcat(x[1..], y, start, end);
    } else {
      assert x + y == y;
    }
  }

  /** `interval[-1] if len(interval) > 0 else None`: the last entry in index order. */
  function Latest(w: Series): (r: Option<Entry>)
    ensures r.None? <==> w == []
    ensures r.Some? ==> r.value == w[|w| - 1]
    ensures r.Some? && Ascending(w) ==> forall e :: e in w ==> e.at <= r.value.at
  {
    if w == [] then None
    else
      assert forall e :: e in w ==> exists i :: 0 <= i < |w| && w[i] == e;
      Some(w[|w| - 1])
  }

  /** `is_monotonic_increasing` of the index. */
  predicate Ascending(s: Series) {
    forall i, j :: 0 <= i < j < |s| ==> s[i].at <= s[j].at
  }

  /** `is_monotonic_decreasing` of the index. */
  predicate Descending(s: Series) {
    forall i, j :: 0 <= i < j < |s| ==> s[i].at >= s[j].at
  }

  /** pandas' truncate raises ValueError("truncate requires a sorted index") unless this holds. */
  predicate SortedIndex(s: Series) {
    Ascending(s) || Descending(s)
  }

  predicate StrictlyAscending(s: Series) {
    forall i, j :: 0 <= i < j < |s| ==> s[i].at < s[j].at
  }

  /** Every timestamp in s is earlier than t. */
  predicate AllBefore(s: Series, t: Instant) {
    forall i :: 0 <= i < |s| ==> s[i].at < t
  }

  /** With a clock that moves forward, a sample is appended and the index stays strictly ascending. */
  lemma StoreAfterAll(s: Series, t: Instant, v: int)
    requires StrictlyAscending(s) && AllBefore(s, t)
    ensures Store(s, t, v) == s + [Entry(t, v)]
    ensures StrictlyAscending(Store(s, t, v)) && AllBefore(Store(s, t, v), t + 1)
    ensures SortedIndex(Store(s, t, v)) && DistinctKeys(Store(s, t, v))
  {
    assert !HasKey(s, t);
  }

  /** The sample just stored under the newest timestamp is what the next window reports as latest. */
  lemma LatestIsNewest(s: Series, t: Instant, v: int, start: Instant, end: Instant)
    requires StrictlyAscending(s) && AllBefore(s, t)
    requires start <= t <= end
    ensures Latest(Window(Store(s, t, v), start, end)) == Some(Entry(t, v))
  {
    StoreAfterAll(s, t, v);
    WindowConcat(s, [Entry(t, v)], start, end);
    assert Window([Entry(t, v)], start, end) == [Entry(t, v)];
  }

  /** A clock that steps back between samples leaves an index that is neither ascending nor descending. */
  lemma ClockBackwardUnsortsIndex(a: int, b: int, c: int)
    ensures !SortedIndex(Store(Store(Store([], 10, a), 30, b), 20, c))
  {
    var s1 := Store([], 10, a);
    assert !HasKey([], 10);
    assert s1 == [Entry(10, a)];
    var s2 := Store(s1, 30, b);
    assert !HasKey(s1, 30);
    assert s2 == [Entry(10, a), Entry(30, b)];
    var s3 := Store(s2, 20, c);
    assert !HasKey(s2, 20);
    assert s3 == [Entry(10, a), Entry(30, b), Entry(20, c)];
    assert s3[0].at < s3[1].at && s3[1].at > s3[2].at;
  }

  /**
   The evidently intended effect of `truncate(before=cutoff)`: drop every entry
   older than cutoff and keep the rest in order.
   */
  function TruncateBefore(s: Series, cutoff: Instant): (r: Series)
    ensures |r| <= |s|
    ensures forall e :: e in r <==> e in s && e.at >= cutoff
  {
    if s == [] then []
    else (if s[0].at >= cutoff then [s[0]] else []) + TruncateBefore(s[1..], cutoff)
  }

  /** Dropping old entries keeps the timestamps distinct. */
  lemma {:induction false} TruncateKeepsDistinct(s: Series, cutoff: Instant)
    requires DistinctKeys(s)
    ensures DistinctKeys(TruncateBefore(s, cutoff))
  {
    if s != [] {
      var rest := TruncateBefore(s[1..], cutoff);
      TruncateKeepsDistinct(s[1..], cutoff);
      forall e | e in rest ensures e.at != s[0].at {
        var j :| 0 <= j < |s[1..]| && s[1..][j] == e;
        assert s[j + 1] == e;
      }
      var r := TruncateBefore(s, cutoff);
      if s[0].at >= cutoff {
        assert r == [s[0]] + rest;
        forall i, j | 0 <= i < j < |r| ensures r[i].at != r[j].at {
          if i == 0 {
            assert r[j] == rest[j - 1];
            assert rest[j - 1] in rest;
          } else {
            assert r[i] == rest[i - 1] && r[j] == rest[j - 1];
          }
        }
      } else {
        assert r == rest;
      }
    }
  }

  /** A series with nothing older than the cutoff is left as it is. */
  lemma {:induction false} TruncateNothingOlder(s: Series, cutoff: Instant)
    requires forall e :: e in s ==> e.at >= cutoff
    ensures TruncateBefore(s, cutoff) == s
  {
    if s != [] {
      assert s[0] in s;
      assert forall e :: e in s[1..] ==> e in s;
      TruncateNothingOlder(s[1..], cutoff);
      assert s == [s[0]] + s[1..];
    }
  }

  lemma TruncateIdempotent(s: Series, cutoff: Instant)
    ensures TruncateBefore(TruncateBefore(s, cutoff), cutoff) == TruncateBefore(s, cutoff)
  {
    TruncateNothingOlder(TruncateBefore(s, cutoff), cutoff);
  }

  /** What `remove_data_before` actually leaves behind: the result of truncate is discarded, so an old entry survives. */
  lemma RemoveDataBeforeKeepsOldEntries(v: int)
    ensures var s := [Entry(0, v)]; s != TruncateBefore(s, 10) && exists e :: e in s && e.at < 10
  {
    var s := [Entry(0, v)];
    assert s[0] in s;
    assert s[0] !in TruncateBefore(s, 10);
  }
}
