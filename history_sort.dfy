/** The local history as the page shows it: the list the history query
    returned, sorted in place by date, newest first
    (`history.sort((a, b) => new Date(b.date) - new Date(a.date))`).

    Parsing a date string (`new Date(s)`) is a parameter, `time`, giving the
    instant a date string denotes. */
module HistorySort {
  import opened HistoryView

  /** Newest first: no entry is older than one after it. */
  ghost predicate NewestFirst(s: seq<WeatherDay>, time: string -> int)
  {
    forall i, j :: 0 <= i < j < |s| ==> time(s[i].date) >= time(s[j].date)
  }

  /** Sorts the fetched history in place, newest first. The result holds the
      same entries, each as often as before. */
  method SortByDateDescending(a: array<WeatherDay>, time: string -> int)
    modifies a
    ensures NewestFirst(a[..], time)
    ensures multiset(a[..]) == old(multiset(a[..]))
  {
    var i := 0;
    while i < a.Length
      invariant 0 <= i <= a.Length
      invariant NewestFirst(a[..i], time)
      invariant multiset(a[..]) == old(multiset(a[..]))
    {
      InsertNewest(a, i, time);
      i := i + 1;
    }
    assert a[..a.Length] == a[..];
  }

  /** One insertion step: the entry at index `i` moves left past every entry
      strictly older than it, so the first i + 1 entries end up newest first.
      An entry passes its neighbour only when it is strictly newer, so entries
      with equal dates are never exchanged. */
  method InsertNewest(a: array<WeatherDay>, i: nat, time: string -> int)
    requires i < a.Length
    requires NewestFirst(a[..i], time)
    modifies a
    ensures NewestFirst(a[..i + 1], time)
    ensures multiset(a[..]) == old(multiset(a[..]))
    ensures a[i + 1..] == old(a[i + 1..])
  {
    var j := i;
    while j > 0 && time(a[j - 1].date) < time(a[j].date)
      invariant 0 <= j <= i
      invariant forall p, q :: 0 <= p < q <= i && p != j && q != j ==> time(a[p].date) >= time(a[q].date)
      invariant forall q :: j < q <= i ==> time(a[j].date) > time(a[q].date)
      invariant multiset(a[..]) == old(multiset(a[..]))
      invariant a[i + 1..] == old(a[i + 1..])
      decreases j
    {
      SwapDown(a, j);
      j := j - 1;
    }
  }

  /** Exchanges the entries at indices k - 1 and k. */
  method SwapDown(a: array<WeatherDay>, k: nat)
    requires 0 < k < a.Length
    modifies a
    ensures a[..] == old(a[..])[k - 1 := old(a[k])][k := old(a[k - 1])]
    ensures multiset(a[..]) == old(multiset(a[..]))
  {
    a[k - 1], a[k] := a[k], a[k - 1];
  }
}
