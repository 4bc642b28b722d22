/**
  The alert manager: a bounded log of the newest alerts (a `deque` with
  `maxlen`) next to per-type counters that keep counting after an alert
  has been evicted, and a newest-first view of the recent alerts.
 */
module AlertLog {
  import opened Wrappers
  import opened Buffers

  const DefaultMaxAlerts: nat := 100

  datatype Alert = Alert(timestamp: Instant, kind: string, severity: string, message: string, details: map<string, string>)

  datatype Manager = Manager(maxAlerts: nat, alerts: seq<Alert>, counts: map<string, nat>)

  /** The deque never holds more than `maxlen` alerts; the counters only hold types that were counted. */
  predicate Valid(m: Manager)
  {
    && |m.alerts| <= m.maxAlerts
    && (forall t :: t in m.counts ==> m.counts[t] >= 1)
  }

  function Fresh(maxAlerts: nat): (m: Manager)
    ensures Valid(m)
  {
    Manager(maxAlerts, [], map[])
  }

  /** A `defaultdict(int)` lookup. */
  function CountOf(counts: map<string, nat>, kind: string): nat
  {
    if kind in counts then counts[kind] else 0
  }

  /** One call of `add_alert(alert_type, severity, message, details)` at wall-clock `now`. */
  datatype Request = Request(kind: string, severity: string, message: string, details: Option<map<string, string>>, now: Instant)

  /** The alert a request records; missing details become `{}`. */
  function AlertOf(q: Request): (a: Alert)
    ensures a.kind == q.kind && a.severity == q.severity && a.timestamp == q.now
    ensures q.details.None? ==> a.details == map[]
  {
    Alert(q.now, q.kind, q.severity, q.message, if q.details.Some? then q.details.value else map[])
  }

  /** `add_alert`: append (evicting the oldest when full) and bump the counter of its type. */
  function AddAlert(m: Manager, q: Request): (m': Manager)
    requires Valid(m)
    ensures Valid(m') && m'.maxAlerts == m.maxAlerts
    ensures m'.alerts == LastN(m.alerts + [AlertOf(q)], m.maxAlerts)
    ensures CountOf(m'.counts, q.kind) == CountOf(m.counts, q.kind) + 1
    ensures forall t :: t != q.kind ==> CountOf(m'.counts, t) == CountOf(m.counts, t)
    ensures m'.counts.Keys == m.counts.Keys + {q.kind}
  {
    m.(alerts := Push(m.alerts, m.maxAlerts, AlertOf(q)),
       counts := m.counts[q.kind := CountOf(m.counts, q.kind) + 1])
  }

  /** A sequence of `add_alert` calls, oldest first. */
  function AddAll(m: Manager, qs: seq<Request>): (m': Manager)
    requires Valid(m)
    ensures Valid(m') && m'.maxAlerts == m.maxAlerts
  {
    if |qs| == 0 then m else AddAlert(AddAll(m, qs[..|qs| - 1]), qs[|qs| - 1])
  }

  function AlertsOf(qs: seq<Request>): (r: seq<Alert>)
    ensures |r| == |qs| && forall i :: 0 <= i < |qs| ==> r[i] == AlertOf(qs[i])
  {
    seq(|qs|, i requires 0 <= i < |qs| => AlertOf(qs[i]))
  }

  /** How many of the requests are of type `kind`. */
  function Occurrences(qs: seq<Request>, kind: string): nat
  {
    if |qs| == 0 then 0
    else Occurrences(qs[..|qs| - 1], kind) + (if qs[|qs| - 1].kind == kind then 1 else 0)
  }

  /** The log keeps exactly the newest `max_alerts` of everything ever added. */
  lemma {:induction false} LogKeepsNewest(m: Manager, qs: seq<Request>)
    requires Valid(m)
    ensures AddAll(m, qs).alerts == LastN(m.alerts + AlertsOf(qs), m.maxAlerts)
  {
    if |qs| == 0 {
      assert m.alerts + AlertsOf(qs) == m.alerts;
    } else {
      var init := qs[..|qs| - 1];
      LogKeepsNewest(m, init);
      assert AlertsOf(qs) == AlertsOf(init) + [AlertOf(qs[|qs| - 1])];
      assert m.alerts + AlertsOf(qs) == (m.alerts + AlertsOf(init)) + [AlertOf(qs[|qs| - 1])];
      PushLastN(m.alerts + AlertsOf(init), m.maxAlerts, AlertOf(qs[|qs| - 1]));
    }
  }

  /** The counters count every alert ever added, evicted ones included. */
  lemma {:induction false} CountersCountEverything(m: Manager, qs: seq<Request>, kind: string)
    requires Valid(m)
    ensures CountOf(AddAll(m, qs).counts, kind) == CountOf(m.counts, kind) + Occurrences(qs, kind)
  {
    if |qs| > 0 {
      CountersCountEverything(m, qs[..|qs| - 1], kind);
    }
  }

  /** `get_alert_summary()`: the per-type counters as a plain dictionary. */
  function AlertSummary(m: Manager): (summary: map<string, nat>)
    requires Valid(m)
    ensures forall t :: t in summary ==> summary[t] >= 1
    ensures forall t :: CountOf(summary, t) == CountOf(m.counts, t)
  {
    m.counts
  }

  /** Starting empty, the summary of a type is the number of alerts of that type ever added. */
  lemma SummaryCountsRequests(maxAlerts: nat, qs: seq<Request>, kind: string)
    ensures CountOf(AlertSummary(AddAll(Fresh(maxAlerts), qs)), kind) == Occurrences(qs, kind)
  {
    CountersCountEverything(Fresh(maxAlerts), qs, kind);
  }

  /** `if severity_filter:` — an absent or empty filter keeps everything. */
  predicate Matches(a: Alert, filter: Option<string>)
  {
    filter.None? || filter.value == "" || a.severity == filter.value
  }

  /** The alerts that pass the filter, in their original order. */
  function Filter(s: seq<Alert>, filter: Option<string>): (r: seq<Alert>)
    ensures |r| <= |s|
    ensures (filter.None? || filter.value == "") ==> r == s
  {
    if |s| == 0 then []
    else
      var init := Filter(s[..|s| - 1], filter);
      var last := s[|s| - 1];
      assert s == s[..|s| - 1] + [last];
      if Matches(last, filter) then init + [last] else init
  }

  /** `r` holds each alert of `s` that passes the filter exactly as often as `s` does, and nothing else. */
  ghost predicate HoldsMatching(r: seq<Alert>, s: seq<Alert>, filter: Option<string>)
  {
    forall a :: multiset(r)[a] == if Matches(a, filter) then multiset(s)[a] else 0
  }

  /** Each alert that passes the filter is kept as often as it occurs (identical alerts are not merged); the rest are dropped. */
  lemma {:induction false} FilterCounts(s: seq<Alert>, filter: Option<string>)
    ensures HoldsMatching(Filter(s, filter), s, filter)
  {
    if |s| > 0 {
      var init, last := s[..|s| - 1], s[|s| - 1];
      FilterCounts(init, filter);
      assert s == init + [last];
      assert multiset(s) == multiset(init) + multiset{last};
      if Matches(last, filter) {
        assert Filter(s, filter) == Filter(init, filter) + [last];
        assert multiset(Filter(s, filter)) == multiset(Filter(init, filter)) + multiset{last};
      } else {
        assert Filter(s, filter) == Filter(init, filter);
      }
    }
  }

  /** Filtering distributes over concatenation, so no alert changes its place relative to another. */
  lemma {:induction false} FilterAppend(s: seq<Alert>, t: seq<Alert>, filter: Option<string>)
    ensures Filter(s + t, filter) == Filter(s, filter) + Filter(t, filter)
  {
    if |t| > 0 {
      var init, last := t[..|t| - 1], t[|t| - 1];
      var st := s + t;
      assert st[..|st| - 1] == s + init;
      assert st[|st| - 1] == last;
      FilterAppend(s, init, filter);
      if Matches(last, filter) {
        assert Filter(st, filter) == Filter(s + init, filter) + [last];
        assert Filter(t, filter) == Filter(init, filter) + [last];
      } else {
        assert Filter(st, filter) == Filter(s + init, filter);
        assert Filter(t, filter) == Filter(init, filter);
      }
    } else {
      assert s + t == s;
    }
  }

  /** `s[::-1]`. */
  function Reverse(s: seq<Alert>): (r: seq<Alert>)
    ensures |r| == |s| && forall i :: 0 <= i < |s| ==> r[i] == s[|s| - 1 - i]
  {
    seq(|s|, i requires 0 <= i < |s| => s[|s| - 1 - i])
  }

  /** The alerts of `s` that pass the filter, collected by walking from the newest back to the oldest. */
  function NewestMatching(s: seq<Alert>, filter: Option<string>): seq<Alert>
  {
    if |s| == 0 then []
    else
      var rest := NewestMatching(s[..|s| - 1], filter);
      if Matches(s[|s| - 1], filter) then [s[|s| - 1]] + rest else rest
  }

  /** Reversing the filtered log is the newest-first walk. */
  lemma {:induction false} ReverseFilterIsNewestMatching(s: seq<Alert>, filter: Option<string>)
    ensures Reverse(Filter(s, filter)) == NewestMatching(s, filter)
  {
    if |s| > 0 {
      var init, last := s[..|s| - 1], s[|s| - 1];
      ReverseFilterIsNewestMatching(init, filter);
      if Matches(last, filter) {
        assert Filter(s, filter) == Filter(init, filter) + [last];
        assert Reverse(Filter(init, filter) + [last]) == [last] + Reverse(Filter(init, filter));
      } else {
        assert Filter(s, filter) == Filter(init, filter);
      }
    }
  }

  /** Reversal rearranges without adding or dropping anything. */
  lemma {:induction false} ReverseKeepsMultiset(s: seq<Alert>)
    ensures multiset(Reverse(s)) == multiset(s)
  {
    if |s| > 0 {
      var init := s[..|s| - 1];
      ReverseKeepsMultiset(init);
      assert s == init + [s[|s| - 1]];
      assert Reverse(s) == [s[|s| - 1]] + Reverse(init);
    }
  }

  /**
    `[a for a in window if a['severity'] == f][::-1]` (no filtering for an
    absent or empty filter): the matching alerts of the window, newest first,
    each as often as it occurs there.
   */
  function NewestFirst(window: seq<Alert>, filter: Option<string>): (r: seq<Alert>)
    ensures |r| <= |window|
    ensures r == NewestMatching(window, filter)
    ensures HoldsMatching(r, window, filter)
    ensures (filter.None? || filter.value == "") ==> r == Reverse(window)
  {
    ReverseFilterIsNewestMatching(window, filter);
    FilterCounts(window, filter);
    ReverseKeepsMultiset(Filter(window, filter));
    Reverse(Filter(window, filter))
  }

  /** `get_recent_alerts(n, severity_filter)` as written: `list(alerts)[-n:]`, filtered, newest first. */
  function RecentAlertsAsWritten(m: Manager, n: int, filter: Option<string>): (r: seq<Alert>)
    ensures r == NewestMatching(PySuffix(m.alerts, n), filter)
    ensures HoldsMatching(r, PySuffix(m.alerts, n), filter)
  {
    NewestFirst(PySuffix(m.alerts, n), filter)
  }

  /** Asking for the zero most recent alerts returns the whole log, because `s[-0:]` is all of `s`. */
  lemma ZeroRecentReturnsEverything(m: Manager)
    ensures RecentAlertsAsWritten(m, 0, None) == Reverse(m.alerts)
    ensures |m.alerts| > 0 ==> |RecentAlertsAsWritten(m, 0, None)| > 0
  {
  }

  /** The newest `n` alerts of a log, newest first, are the log's last alerts read backwards. */
  lemma ReverseLastN(s: seq<Alert>, n: nat)
    ensures |Reverse(LastN(s, n))| == if n < |s| then n else |s|
    ensures forall i :: 0 <= i < |Reverse(LastN(s, n))| ==> Reverse(LastN(s, n))[i] == s[|s| - 1 - i]
  {
  }

  /**
    The evident intent of `get_recent_alerts`: among the newest `n` alerts,
    those that pass the filter, newest first, and never more than `n`.
   */
  function RecentAlerts(m: Manager, n: nat, filter: Option<string>): (r: seq<Alert>)
    ensures |r| <= n
    ensures r == NewestMatching(LastN(m.alerts, n), filter)
    ensures HoldsMatching(r, LastN(m.alerts, n), filter)
    ensures (filter.None? || filter.value == "") ==>
      |r| == (if n < |m.alerts| then n else |m.alerts|) &&
      forall i :: 0 <= i < |r| ==> r[i] == m.alerts[|m.alerts| - 1 - i]
  {
    ReverseLastN(m.alerts, n);
    NewestFirst(LastN(m.alerts, n), filter)
  }

  /** For a positive count the code as written already behaves as intended. */
  lemma RecentAlertsAgreeForPositiveCounts(m: Manager, n: nat, filter: Option<string>)
    requires n > 0
    ensures RecentAlertsAsWritten(m, n, filter) == RecentAlerts(m, n, filter)
  {
  }

  /** With the intended reading, zero recent alerts is the empty list. */
  lemma ZeroRecentIsEmpty(m: Manager, filter: Option<string>)
    ensures RecentAlerts(m, 0, filter) == []
  {
  }
}
