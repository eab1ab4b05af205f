/** The ring of operator events, and a reader that pages through it. */
module Journal {
  import opened Ordered

  const LOG_CAPACITY := 200

  datatype Event = Event(sequence: nat, timestamp: nat, level: string, event: string, message: string)
  datatype LogPage = LogPage(entries: seq<Event>, nextCursor: nat, droppedBefore: nat, truncated: bool)

  function NewerThan(entries: seq<Event>, after: nat): seq<Event> {
    if entries == [] then []
    else if entries[0].sequence > after then [entries[0]] + NewerThan(entries[1..], after)
    else NewerThan(entries[1..], after)
  }

  function PageOf(entries: seq<Event>, sequence: nat, after: nat, limit: nat): LogPage {
    var dropped := if entries == [] || entries[0].sequence == 0 then 0 else entries[0].sequence - 1;
    var newer := NewerThan(entries, after);
    var page := newer[..Min(Min(limit, LOG_CAPACITY), |newer|)];
    LogPage(page, if page == [] then sequence else page[|page| - 1].sequence, dropped, after < dropped)
  }

  /** Every event ever pushed, numbered from one. */
  ghost predicate IsLog(log: seq<Event>) {
    forall i :: 0 <= i < |log| ==> log[i].sequence == i + 1
  }

  /** What a ring of this capacity keeps of the whole log. */
  function Kept(log: seq<Event>): seq<Event> {
    log[|log| - Min(|log|, LOG_CAPACITY)..]
  }

  class Journal {
    var entries: seq<Event>
    var sequence: nat
    ghost var log: seq<Event>

    /** The ring is the end of the unbounded log. */
    ghost predicate Valid()
      reads this
    {
      IsLog(log) && sequence == |log| && entries == Kept(log)
    }

    constructor ()
      ensures Valid() && log == []
    {
      entries := [];
      sequence := 0;
      log := [];
    }

    method Push(now: nat, level: string, event: string, message: string)
      requires Valid()
      modifies this
      ensures Valid() && log == old(log) + [Event(|old(log)| + 1, now, level, event, message)]
    {
      sequence := sequence + 1;
      if |entries| == LOG_CAPACITY {
        entries := entries[1..];
      }
      var e := Event(sequence, now, level, event, message);
      entries := entries + [e];
      log := log + [e];
    }

    /** A page shows the log from the cursor on, or from the oldest kept event if that is later, and says so. */
    method Page(after: nat, limit: nat) returns (page: LogPage)
      requires Valid()
      ensures page == PageOf(Kept(log), |log|, after, limit)
    {
      page := PageOf(entries, sequence, after, limit);
    }
  }

  function Dropped(log: seq<Event>): nat {
    |log| - Min(|log|, LOG_CAPACITY)
  }

  lemma {:induction false} NewerIsSuffix(log: seq<Event>, from: nat, after: nat)
    requires IsLog(log) && from <= |log|
    ensures NewerThan(log[from..], after) == log[Min(Max(from, after), |log|)..]
    decreases |log| - from
  {
    if from < |log| {
      assert log[from..][1..] == log[from + 1..];
      NewerIsSuffix(log, from + 1, after);
      if after <= from {
        assert log[from..] == [log[from]] + log[from + 1..];
      }
    }
  }

  lemma SliceTwice<T>(s: seq<T>, start: nat, n: nat)
    requires start + n <= |s|
    ensures s[start..][..n] == s[start..start + n]
  {
  }

  /** Where a page starts, and how far it goes. */
  function PageStart(log: seq<Event>, after: nat): (start: nat)
    requires after <= |log|
    ensures start <= |log|
  {
    Max(after, Dropped(log))
  }

  function PageEnd(log: seq<Event>, after: nat, limit: nat): (end: nat)
    requires after <= |log|
    ensures PageStart(log, after) <= end <= |log|
  {
    PageStart(log, after) + Min(Min(limit, LOG_CAPACITY), |log| - PageStart(log, after))
  }

  lemma PageEntries(log: seq<Event>, after: nat, limit: nat)
    requires IsLog(log) && after <= |log|
    ensures PageOf(Kept(log), |log|, after, limit).entries == log[PageStart(log, after)..PageEnd(log, after, limit)]
  {
    NewerIsSuffix(log, Dropped(log), after);
    SliceTwice(log, PageStart(log, after), PageEnd(log, after, limit) - PageStart(log, after));
  }

  /** For a cursor within the log and a limit of at least one, a page is a run of consecutive events that
      starts right after the cursor, unless it says `truncated`; then it starts at the oldest event kept. */
  lemma PageIsTheLog(log: seq<Event>, after: nat, limit: nat)
    requires IsLog(log) && after <= |log| && limit > 0
    ensures var page := PageOf(Kept(log), |log|, after, limit);
            && page.droppedBefore == Dropped(log) && (page.truncated <==> after < Dropped(log))
            && page.entries == log[PageStart(log, after)..PageEnd(log, after, limit)]
            && page.nextCursor == PageEnd(log, after, limit)
  {
    PageEntries(log, after, limit);
    var start, end := PageStart(log, after), PageEnd(log, after, limit);
    if start < end {
      assert log[start..end][end - start - 1] == log[end - 1];
    }
  }

  /** A page accounts for every event that its cursor moves over, by showing it or as dropped, exactly
      when it may show one or there is none to show. A page of size zero moves past all of them. */
  lemma PageAccounts(log: seq<Event>, after: nat, limit: nat)
    requires IsLog(log) && after <= |log|
    ensures var page := PageOf(Kept(log), |log|, after, limit);
            page.nextCursor == PageStart(log, after) + |page.entries| <==> limit > 0 || PageStart(log, after) == |log|
  {
    PageEntries(log, after, limit);
    if limit > 0 {
      PageIsTheLog(log, after, limit);
    }
  }

  // ----- a reader that follows the cursor -----

  datatype Action = Push(now: nat, level: string, event: string, message: string) | Read(limit: nat)

  /** The log, the reader's cursor, what it has received, and the numbers that truncated pages skipped. */
  datatype Reading = Reading(log: seq<Event>, cursor: nat, received: seq<Event>, missed: set<nat>)

  function Between(lo: nat, hi: nat): (ns: set<nat>)
    ensures forall n :: n in ns <==> lo < n <= hi
    decreases hi
  {
    if hi <= lo then {} else Between(lo, hi - 1) + {hi}
  }

  ghost predicate Has(events: seq<Event>, n: nat) {
    exists i :: 0 <= i < |events| && events[i].sequence == n
  }

  function Step(r: Reading, a: Action): Reading {
    match a
    case Push(now, level, event, message) => r.(log := r.log + [Event(|r.log| + 1, now, level, event, message)])
    case Read(limit) =>
      var page := PageOf(Kept(r.log), |r.log|, r.cursor, limit);
      r.(cursor := page.nextCursor, received := r.received + page.entries,
         missed := if page.truncated then r.missed + Between(r.cursor, page.droppedBefore) else r.missed)
  }

  function Run(r: Reading, actions: seq<Action>): Reading
    decreases |actions|
  {
    if actions == [] then r else Run(Step(r, actions[0]), actions[1..])
  }

  predicate ValidLimits(actions: seq<Action>) {
    forall i :: 0 <= i < |actions| && actions[i].Read? ==> 1 <= actions[i].limit <= LOG_CAPACITY
  }

  /** Each event up to the cursor was received once, in order and as logged, or was evicted first and is
      on record as missed. */
  ghost predicate Faithful(r: Reading) {
    && IsLog(r.log) && r.cursor <= |r.log|
    && (forall i :: 0 <= i < |r.received| ==> 1 <= r.received[i].sequence <= r.cursor && r.received[i] == r.log[r.received[i].sequence - 1])
    && (forall i, j :: 0 <= i < j < |r.received| ==> r.received[i].sequence < r.received[j].sequence)
    && (forall n :: n in r.missed ==> 1 <= n <= r.cursor && n <= Dropped(r.log))
    && (forall n :: 1 <= n <= r.cursor ==> (n in r.missed <==> !Has(r.received, n)))
  }

  lemma PushFaithful(r: Reading, a: Action)
    requires Faithful(r) && a.Push?
    ensures Faithful(Step(r, a))
  {
    assert forall i :: 0 <= i < |r.log| ==> Step(r, a).log[i] == r.log[i];
  }

  /** Appending the run `lo + 1 .. hi` adds exactly those numbers. */
  lemma HasAppended(received: seq<Event>, log: seq<Event>, lo: nat, hi: nat, n: nat)
    requires IsLog(log) && lo <= hi <= |log|
    ensures Has(received + log[lo..hi], n) <==> Has(received, n) || lo < n <= hi
  {
    var more := received + log[lo..hi];
    if Has(received, n) {
      var i :| 0 <= i < |received| && received[i].sequence == n;
      assert more[i].sequence == n;
    }
    if lo < n <= hi {
      assert more[|received| + (n - 1 - lo)] == log[n - 1];
    }
  }

  lemma OrderAppended(received: seq<Event>, log: seq<Event>, cursor: nat, lo: nat, hi: nat)
    requires IsLog(log) && cursor <= lo <= hi <= |log|
    requires forall i :: 0 <= i < |received| ==> received[i].sequence <= cursor
    requires forall i, j :: 0 <= i < j < |received| ==> received[i].sequence < received[j].sequence
    ensures var more := received + log[lo..hi];
            forall i, j :: 0 <= i < j < |more| ==> more[i].sequence < more[j].sequence
  {
    var more := received + log[lo..hi];
    assert forall i :: |received| <= i < |more| ==> more[i].sequence == lo + (i - |received|) + 1;
  }

  /** A read moves the cursor over a run of the log, and records as missed what was evicted before it. */
  lemma ReadDoes(r: Reading, limit: nat)
    requires IsLog(r.log) && r.cursor <= |r.log| && 1 <= limit <= LOG_CAPACITY
    ensures var after, start, end := Step(r, Read(limit)), PageStart(r.log, r.cursor), PageEnd(r.log, r.cursor, limit);
            && after.log == r.log && after.cursor == end && after.received == r.received + r.log[start..end]
            && (forall n :: n in after.missed <==> n in r.missed || r.cursor < n <= start)
            && r.cursor <= start <= end && (start > r.cursor ==> start == Dropped(r.log))
  {
    PageIsTheLog(r.log, r.cursor, limit);
  }

  /** Appending a run of the log keeps what was received true to the log. */
  lemma TrueAppended(received: seq<Event>, log: seq<Event>, cursor: nat, lo: nat, hi: nat)
    requires IsLog(log) && cursor <= lo <= hi <= |log|
    requires forall i :: 0 <= i < |received| ==> 1 <= received[i].sequence <= cursor && received[i] == log[received[i].sequence - 1]
    ensures var more := received + log[lo..hi];
            forall i :: 0 <= i < |more| ==> 1 <= more[i].sequence <= hi && more[i] == log[more[i].sequence - 1]
  {
    var more := received + log[lo..hi];
    assert forall i :: |received| <= i < |more| ==> more[i] == log[lo + (i - |received|)];
  }

  lemma ReadFaithful(r: Reading, limit: nat)
    requires Faithful(r) && 1 <= limit <= LOG_CAPACITY
    ensures Faithful(Step(r, Read(limit)))
  {
    var after := Step(r, Read(limit));
    var start, end := PageStart(r.log, r.cursor), PageEnd(r.log, r.cursor, limit);
    ReadDoes(r, limit);
    TrueAppended(r.received, r.log, r.cursor, start, end);
    OrderAppended(r.received, r.log, r.cursor, start, end);
    forall n | 1 <= n <= end ensures n in after.missed <==> !Has(after.received, n) {
      HasAppended(r.received, r.log, start, end, n);
      if n > r.cursor {
        BeyondCursor(r, n);
      }
    }
  }

  lemma BeyondCursor(r: Reading, n: nat)
    requires Faithful(r) && n > r.cursor
    ensures !Has(r.received, n)
  {
  }

  /** Whatever is pushed in between, a reader that follows `next_cursor` receives every event at most once
      and in order, and misses one only if it was evicted and the page said so. */
  lemma {:induction false} ReaderMissesOnlyEvicted(r: Reading, actions: seq<Action>)
    requires Faithful(r) && ValidLimits(actions)
    ensures Faithful(Run(r, actions))
    decreases |actions|
  {
    if actions != [] {
      match actions[0] {
        case Push(_, _, _, _) => PushFaithful(r, actions[0]);
        case Read(limit) => ReadFaithful(r, limit);
      }
      ReaderMissesOnlyEvicted(Step(r, actions[0]), actions[1..]);
    }
  }

  const START := Reading([], 0, [], {})

  /** So from an empty journal on: the numbers that were not received are exactly those that truncated
      pages reported, and all of them were evicted. */
  lemma ReaderFromStart(actions: seq<Action>)
    requires ValidLimits(actions)
    ensures var r := Run(START, actions);
            && (forall n :: 1 <= n <= r.cursor ==> (n in r.missed <==> !Has(r.received, n)))
            && (forall n :: n in r.missed ==> n <= Dropped(r.log))
            && (forall i, j :: 0 <= i < j < |r.received| ==> r.received[i].sequence < r.received[j].sequence)
  {
    ReaderMissesOnlyEvicted(START, actions);
  }
}
