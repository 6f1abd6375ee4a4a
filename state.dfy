/**
  The daemon's shared state: the active sessions (`state.scan1`), the
  interaction and door flags, and the two text files the state is
  persisted to. Timestamps are whole seconds.
*/
module State {
  import opened Wrappers

  /** One finished break, from its start to its end. */
  datatype Interval = Interval(start: int, end: int)

  function Duration(b: Interval): int {
    b.end - b.start
  }

  /** The summed length of a list of breaks. */
  function TotalDuration(bs: seq<Interval>): int {
    if bs == [] then 0 else Duration(bs[0]) + TotalDuration(bs[1..])
  }

  /** Closing one more break adds its length to the sum. */
  lemma {:induction false} TotalDurationAppend(bs: seq<Interval>, b: Interval)
    ensures TotalDuration(bs + [b]) == TotalDuration(bs) + Duration(b)
  {
    if bs == [] {
      assert bs + [b] == [b];
    } else {
      assert (bs + [b])[1..] == bs[1..] + [b];
      TotalDurationAppend(bs[1..], b);
    }
  }

  /** The record kept for a card while its holder is inside. */
  datatype Session = Session(
    entry: int,
    name: string,
    onBreak: bool,
    breakStart: Option<int>,
    totalBreak: int,
    breaks: seq<Interval>)

  /** A session as the handlers build it: on break exactly when a break
      start is recorded, and the break total is the sum of the closed breaks.
      A session read back from a hand-edited file need not be consistent. */
  predicate Consistent(s: Session) {
    (s.onBreak <==> s.breakStart.Some?) && s.totalBreak == TotalDuration(s.breaks)
  }

  predicate NoDup<T(==)>(xs: seq<T>) {
    forall i, j :: 0 <= i < j < |xs| ==> xs[i] != xs[j]
  }

  /** `state.scan1`: a dictionary from card to session, which (like every
      Python dictionary) remembers the order its keys were first inserted. */
  datatype Ledger = Ledger(order: seq<string>, scans: map<string, Session>)

  ghost predicate Valid(l: Ledger) {
    NoDup(l.order) && forall k :: k in l.scans <==> k in l.order
  }

  function EmptyLedger(): (l: Ledger)
    ensures Valid(l) && l.scans == map[]
  {
    Ledger([], map[])
  }

  /** `d[k] = v`: a new key goes to the end, an existing key keeps its place. */
  function Put(l: Ledger, k: string, v: Session): (r: Ledger)
    ensures r.scans == l.scans[k := v]
    ensures Valid(l) ==> Valid(r)
    ensures Valid(l) && k in l.scans ==> r.order == l.order
    ensures Valid(l) && k !in l.scans ==> r.order == l.order + [k]
  {
    if k in l.scans then Ledger(l.order, l.scans[k := v])
    else Ledger(l.order + [k], l.scans[k := v])
  }

  /** The order without one key. */
  function Without(order: seq<string>, k: string): (r: seq<string>)
    ensures forall x :: x in r <==> x in order && x != k
    ensures NoDup(order) ==> NoDup(r)
  {
    if order == [] then []
    else if order[0] == k then Without(order[1..], k)
    else
      var r := [order[0]] + Without(order[1..], k);
      assert forall x :: x in r <==> x == order[0] || x in Without(order[1..], k);
      assert NoDup(order) ==> order[0] !in order[1..] && NoDup(order[1..]);
      assert forall j :: 1 <= j < |r| ==> r[j] == Without(order[1..], k)[j - 1];
      r
  }

  /** Removing a key keeps every other key in its place relative to the
      rest: an absent key changes nothing, and a present one is cut out of
      the order where it stands. */
  lemma {:induction false} WithoutKeepsOrder(order: seq<string>, k: string)
    ensures k !in order ==> Without(order, k) == order
    ensures NoDup(order) ==>
      forall p :: 0 <= p < |order| && order[p] == k ==> Without(order, k) == order[..p] + order[p + 1..]
  {
    if order != [] {
      var tail := order[1..];
      WithoutKeepsOrder(tail, k);
      assert order == [order[0]] + tail;
      if NoDup(order) {
        assert NoDup(tail);
        forall p | 0 <= p < |order| && order[p] == k
          ensures Without(order, k) == order[..p] + order[p + 1..]
        {
          if p == 0 {
            assert k !in tail;
            assert order[p + 1..] == tail;
          } else {
            assert tail[p - 1] == k;
            assert order[0] != k;
            assert order[..p] + order[p + 1..] == [order[0]] + (tail[..p - 1] + tail[p..]);
          }
        }
      }
    }
  }

  /** `d.pop(k)` */
  function Pop(l: Ledger, k: string): (r: Ledger)
    ensures r.scans == l.scans - {k}
    ensures Valid(l) ==> Valid(r)
  {
    Ledger(Without(l.order, k), l.scans - {k})
  }

  /**
    The module-level state the handlers share. `unlockEvent` stands for
    `state.unlock_event` having been set; `activeFile` and `logFile` are the
    contents of the active-scans snapshot and the attendance log (`None`
    while the file does not exist).
  */
  class SharedState {
    var scan1: Ledger
    var interactionInProgress: bool
    var systemActive: bool
    var unlockEvent: bool
    var activeFile: Option<string>
    var logFile: Option<string>

    constructor(activeFile: Option<string>, logFile: Option<string>)
      ensures scan1 == EmptyLedger() && !interactionInProgress && !systemActive && !unlockEvent
      ensures this.activeFile == activeFile && this.logFile == logFile
    {
      scan1 := EmptyLedger();
      interactionInProgress := false;
      systemActive := false;
      unlockEvent := false;
      this.activeFile := activeFile;
      this.logFile := logFile;
    }
  }
}
