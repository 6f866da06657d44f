// The bounded history of delays: a ring buffer with a size limit that can be changed, against the plain
// log of everything added since the last clean.
module TimeHistory {

  datatype DelayInfo = DelayInfo(delay: int, timeClock: int)

  // ---- The ring ----

  // A circular buffer: at most `capacity` elements, oldest first; pushing onto a full one drops the
  // oldest, and one without capacity stays empty.
  datatype Ring = Ring(items: seq<DelayInfo>, capacity: nat) {
    function PushBack(d: DelayInfo): Ring {
      if capacity == 0 then this
      else if |items| == capacity then this.(items := items[1..] + [d])
      else this.(items := items + [d])
    }
  }

  // Ring, limit, and whether re-creating a ring keeps the copied elements: the copy writes through the
  // begin iterator of an empty buffer, which the buffer's own size never hears of.
  datatype State = State(q: Ring, maxSize: nat)

  function Init(maxSize: nat): State {
    State(Ring([], maxSize), maxSize)
  }

  function Trim(s: State, kept: bool): State {
    var n := |s.q.items|;
    if n <= s.maxSize || n == 0 then s
    else
      var needRemove := n - s.maxSize;
      if needRemove == 1 then s.(q := s.q.(items := s.q.items[1..]))
      else s.(q := Ring(if kept then s.q.items[needRemove..] else [], s.maxSize))
  }

  // The elements from the first one that is not before `time` on.
  function DropBefore(items: seq<DelayInfo>, time: int): seq<DelayInfo> {
    if items != [] && items[0].timeClock < time then DropBefore(items[1..], time) else items
  }

  datatype Op =
    | Add(info: DelayInfo)
    | SetMaxSize(m: nat, kept: bool)
    | RemoveBefore(time: int)
    | Clean

  function Apply(s: State, op: Op): State {
    match op
    case Add(d) => Trim(s.(q := s.q.PushBack(d)), true)   // at most one too many: no re-creation
    case SetMaxSize(m, kept) => Trim(s.(maxSize := if m < 1 then 1 else m), kept)
    case RemoveBefore(time) => s.(q := s.q.(items := DropBefore(s.q.items, time)))
    case Clean => s.(q := s.q.(items := []))
  }

  function Run(maxSize: nat, ops: seq<Op>): State {
    if ops == [] then Init(maxSize)
    else Apply(Run(maxSize, ops[..|ops| - 1]), ops[|ops| - 1])
  }

  // Everything added since the last clean.
  function Log(ops: seq<Op>): seq<DelayInfo> {
    if ops == [] then []
    else
      var front := Log(ops[..|ops| - 1]);
      match ops[|ops| - 1]
      case Add(d) => front + [d]
      case Clean => []
      case _ => front
  }

  predicate IsSuffix(a: seq<DelayInfo>, b: seq<DelayInfo>) {
    |a| <= |b| && a == b[|b| - |a|..]
  }

  lemma {:induction false} DropIsSuffix(items: seq<DelayInfo>, time: int)
    ensures IsSuffix(DropBefore(items, time), items)
    ensures forall i :: 0 <= i < |items| - |DropBefore(items, time)| ==> items[i].timeClock < time
    ensures DropBefore(items, time) != [] ==> DropBefore(items, time)[0].timeClock >= time
  {
    if items != [] && items[0].timeClock < time {
      var rest, kept := items[1..], DropBefore(items, time);
      DropIsSuffix(rest, time);
      var k := |rest| - |kept|;
      assert kept == rest[k..] == items[k + 1..];
      forall i | 0 <= i < k + 1
        ensures items[i].timeClock < time
      {
        assert i > 0 ==> items[i] == rest[i - 1];
      }
    }
  }

  lemma SuffixTrans(a: seq<DelayInfo>, b: seq<DelayInfo>, c: seq<DelayInfo>)
    requires IsSuffix(a, b) && IsSuffix(b, c)
    ensures IsSuffix(a, c)
  {
  }

  // The state keeps within both bounds.
  predicate Bounded(s: State) {
    |s.q.items| <= s.maxSize && |s.q.items| <= s.q.capacity
  }

  lemma TrimIsSuffix(s: State, kept: bool)
    requires |s.q.items| <= s.q.capacity
    ensures var t := Trim(s, kept);
            Bounded(t) && IsSuffix(t.q.items, s.q.items)
  {
  }

  // The newest `k` elements, or all if there are fewer.
  function Newest(items: seq<DelayInfo>, k: nat): seq<DelayInfo> {
    if |items| <= k then items else items[|items| - k..]
  }

  // Trimming keeps the newest values up to the limit, except exactly when the ring is re-created, which
  // takes at least two values too many, and the copy is lost: then nothing stays.
  lemma TrimKeepsNewestIff(s: State, kept: bool)
    requires s.maxSize >= 1
    ensures Trim(s, kept).q.items == Newest(s.q.items, s.maxSize)
       <==> kept || |s.q.items| <= s.maxSize + 1
    ensures !(kept || |s.q.items| <= s.maxSize + 1) ==> Trim(s, kept).q.items == []
  {
    var n := |s.q.items|;
    assert n > s.maxSize ==> |Newest(s.q.items, s.maxSize)| == s.maxSize;
  }

  lemma PushIsSuffix(q: Ring, d: DelayInfo)
    requires |q.items| <= q.capacity
    ensures |q.PushBack(d).items| <= q.capacity && IsSuffix(q.PushBack(d).items, q.items + [d])
  {
  }

  // One more addition, exactly: the new value is last, and the oldest goes iff the ring was at the
  // smaller of its two bounds.
  lemma AddKeepsNewest(s: State, d: DelayInfo)
    requires Bounded(s) && s.maxSize >= 1 && s.q.capacity >= 1
    ensures var t := Apply(s, Add(d));
            var bound := if s.maxSize < s.q.capacity then s.maxSize else s.q.capacity;
            t.q.items == (if |s.q.items| == bound then s.q.items[1..] else s.q.items) + [d]
            && t.maxSize == s.maxSize && t.q.capacity == s.q.capacity
  {
    var p := s.q.PushBack(d);
    assert s.q.items != [] ==> (s.q.items + [d])[1..] == s.q.items[1..] + [d];
  }

  // What each operation does to the limit, to the ring and to its contents.
  predicate Does(s: State, op: Op, t: State) {
    match op
    case Add(d) => t.maxSize == s.maxSize && t.q.capacity == s.q.capacity
    case SetMaxSize(m, kept) =>
      && t.maxSize == (if m == 0 then 1 else m)
      && (|s.q.items| <= t.maxSize + 1 ==> t.q.capacity == s.q.capacity)
      && (|s.q.items| > t.maxSize + 1 ==> t.q.capacity == t.maxSize)
      && (t.q.items == Newest(s.q.items, t.maxSize) <==> kept || |s.q.items| <= t.maxSize + 1)
      && (!(kept || |s.q.items| <= t.maxSize + 1) ==> t.q.items == [])
    case RemoveBefore(time) =>
      && t.maxSize == s.maxSize && t.q.capacity == s.q.capacity && IsSuffix(t.q.items, s.q.items)
      && (forall i :: 0 <= i < |s.q.items| - |t.q.items| ==> s.q.items[i].timeClock < time)
      && (t.q.items != [] ==> t.q.items[0].timeClock >= time)
    case Clean => t.maxSize == s.maxSize && t.q.capacity == s.q.capacity && t.q.items == []
  }

  lemma ApplyDoes(s: State, op: Op)
    requires Bounded(s) && s.maxSize >= 1 && s.q.capacity >= 1
    ensures Does(s, op, Apply(s, op))
    ensures op.Add? ==> Apply(s, op).q.items != [] && Apply(s, op).q.items[|Apply(s, op).q.items| - 1] == op.info
  {
    match op
    case Add(d) => AddKeepsNewest(s, d);
    case SetMaxSize(m, kept) => TrimKeepsNewestIff(s.(maxSize := if m < 1 then 1 else m), kept);
    case RemoveBefore(time) => DropIsSuffix(s.q.items, time);
    case Clean =>
  }

  // With values in the order of their times, as a clock that does not run backwards leaves them, exactly
  // the older ones go.
  lemma RemovesExactlyOlder(s: State, time: int, i: nat)
    requires forall a, b :: 0 <= a < b < |s.q.items| ==> s.q.items[a].timeClock <= s.q.items[b].timeClock
    requires i < |s.q.items|
    ensures var t := Apply(s, RemoveBefore(time));
            var gone := |s.q.items| - |t.q.items|;
            gone >= 0 && (s.q.items[i].timeClock >= time <==> i >= gone)
            && (i >= gone ==> t.q.items[i - gone] == s.q.items[i])
  {
    DropIsSuffix(s.q.items, time);
    var rest := DropBefore(s.q.items, time);
    assert rest != [] ==> rest[0] == s.q.items[|s.q.items| - |rest|];
  }

  // After any operations the history is a contiguous newest part of the values added since the last
  // clean, in insertion order, within both the size limit and the ring's capacity, whether or not
  // re-creating the ring keeps its elements.
  lemma {:induction false} RingIsNewestOfLog(maxSize: nat, ops: seq<Op>)
    ensures var s := Run(maxSize, ops);
            Bounded(s) && IsSuffix(s.q.items, Log(ops))
  {
    if ops != [] {
      var front, op := ops[..|ops| - 1], ops[|ops| - 1];
      RingIsNewestOfLog(maxSize, front);
      var s, log := Run(maxSize, front), Log(front);
      match op
      case Add(d) =>
        PushIsSuffix(s.q, d);
        TrimIsSuffix(s.(q := s.q.PushBack(d)), true);
        SuffixSnoc(s.q.items, log, d);
        SuffixTrans(s.q.PushBack(d).items, s.q.items + [d], log + [d]);
        SuffixTrans(Apply(s, op).q.items, s.q.PushBack(d).items, log + [d]);
      case SetMaxSize(m, kept) =>
        TrimIsSuffix(s.(maxSize := if m < 1 then 1 else m), kept);
        SuffixTrans(Apply(s, op).q.items, s.q.items, log);
      case RemoveBefore(time) =>
        DropIsSuffix(s.q.items, time);
        SuffixTrans(Apply(s, op).q.items, s.q.items, log);
      case Clean =>
    }
  }

  lemma SuffixSnoc(a: seq<DelayInfo>, b: seq<DelayInfo>, d: DelayInfo)
    requires IsSuffix(a, b)
    ensures IsSuffix(a + [d], b + [d])
  {
  }

  // Nothing is lost but by the limits: with additions only, the history is the log's newest `maxSize`.
  lemma {:induction false} AddsOnly(maxSize: nat, ops: seq<Op>)
    requires forall i :: 0 <= i < |ops| ==> ops[i].Add?
    ensures |Log(ops)| == |ops|
    ensures var s := Run(maxSize, ops);
            && s.maxSize == maxSize && s.q.capacity == maxSize
            && |s.q.items| == if |ops| < maxSize then |ops| else maxSize
  {
    if ops != [] {
      AddsOnly(maxSize, ops[..|ops| - 1]);
    }
  }

  // ---- The object ----

  class History {
    var q: Ring
    var maxSize: nat

    function View(): State
      reads this
    {
      State(q, maxSize)
    }

    constructor (maxSize: nat)
      ensures View() == Init(maxSize)
    {
      this.maxSize := maxSize;
      q := Ring([], maxSize);
    }

    // `kept` says what the copy into the re-created ring leaves there.
    method TrimRing(kept: bool)
      modifies this
      ensures View() == Trim(old(View()), kept)
    {
      if |q.items| > maxSize && q.items != [] {
        var needRemove := |q.items| - maxSize;
        if needRemove == 1 {
          q := q.(items := q.items[1..]);
        } else {
          var m := Ring([], maxSize);
          if kept {
            m := m.(items := q.items[needRemove..]);
          }
          q := m;
        }
      }
    }

    method AddDelayInfo(delay: int, now: int)
      modifies this
      requires Bounded(View())
      ensures View() == Apply(old(View()), Add(DelayInfo(delay, now))) && Bounded(View())
    {
      PushIsSuffix(q, DelayInfo(delay, now));
      q := q.PushBack(DelayInfo(delay, now));
      TrimIsSuffix(View(), true);
      TrimRing(true);
    }

    method SetMaxSize(m: nat, kept: bool)
      modifies this
      requires Bounded(View())
      ensures View() == Apply(old(View()), Op.SetMaxSize(m, kept)) && Bounded(View())
    {
      maxSize := if m < 1 then 1 else m;
      TrimIsSuffix(View(), kept);
      TrimRing(kept);
    }

    method RemoveBefore(time: int)
      modifies this
      requires Bounded(View())
      ensures View() == Apply(old(View()), Op.RemoveBefore(time)) && Bounded(View())
    {
      ghost var items := q.items;
      DropIsSuffix(items, time);
      while q.items != []
        invariant DropBefore(q.items, time) == DropBefore(items, time)
        invariant q.capacity == old(q.capacity) && maxSize == old(maxSize) && |q.items| <= |items|
        decreases |q.items|
      {
        if q.items[0].timeClock < time {
          q := q.(items := q.items[1..]);
        } else {
          break;
        }
      }
    }

    method CleanAll()
      modifies this
      ensures View() == Apply(old(View()), Clean) && Bounded(View())
    {
      q := q.(items := []);
    }
  }
}
