// Server selection over a fixed-size pool, as functions of which servers are usable and of the cursor:
// the two circular scans, the rules built on them, and fairness, stickiness and rate over many picks.
module Selection {
  import opened Bytes

  // ---- The circular scans ----

  // One step of a cursor.
  function Advance(n: nat, c: nat): nat
    requires n > 0
  {
    if c + 1 >= n then 0 else c + 1
  }

  // The first usable index within `k` steps after `c`.
  function ScanAfter(ok: seq<bool>, c: nat, k: nat): Option<nat>
    requires |ok| > 0
    decreases k
  {
    if k == 0 then None
    else
      var i := Advance(|ok|, c);
      if ok[i] then Some(i) else ScanAfter(ok, i, k - 1)
  }

  // getNextServer: all indices, starting after the cursor and ending with it.
  function NextUsable(ok: seq<bool>, c: nat): Option<nat> {
    if ok == [] then None else ScanAfter(ok, c, |ok|)
  }

  // The first usable one of `k` indices, starting with `at`.
  function ScanFrom(ok: seq<bool>, at: nat, k: nat): (r: Option<nat>)
    requires at < |ok| && k > 0
    ensures ok[at] ==> r == Some(at)
  {
    if ok[at] then Some(at) else ScanAfter(ok, at, k - 1)
  }

  // tryGetLastServer: all indices, starting with the cursor.
  function LastUsable(ok: seq<bool>, c: nat): Option<nat> {
    if ok == [] then None else ScanFrom(ok, if c >= |ok| then 0 else c, |ok|)
  }

  lemma ScanFromStep(ok: seq<bool>, at: nat, k: nat)
    requires at < |ok| && k > 0 && !ok[at]
    ensures ScanFrom(ok, at, k) == if k == 1 then None else ScanFrom(ok, Advance(|ok|, at), k - 1)
  {
  }

  // How far `i` is after `c` on the circle: 1 for the next index, n for `c` itself.
  function Distance(n: nat, c: nat, i: nat): nat
    requires c < n && i < n
  {
    if i > c then i - c else i - c + n
  }

  // The cursor after `k` steps.
  function Ahead(n: nat, c: nat, k: nat): (i: nat)
    requires c < n && k <= n
    ensures i < n && (k > 0 ==> Distance(n, c, i) == k) && (k == n ==> i == c)
  {
    if c + k < n then c + k else c + k - n
  }

  ghost predicate NoneUsable(ok: seq<bool>) {
    forall i :: 0 <= i < |ok| ==> !ok[i]
  }

  // `i` is the nearest usable index after `c`, at most `k` steps away.
  predicate NearestWithin(ok: seq<bool>, c: nat, k: nat, i: nat)
    requires c < |ok|
  {
    && i < |ok| && ok[i] && Distance(|ok|, c, i) <= k
    && forall j :: 0 <= j < |ok| && Distance(|ok|, c, j) < Distance(|ok|, c, i) ==> !ok[j]
  }

  lemma {:induction false} ScanIsNearest(ok: seq<bool>, c: nat, k: nat)
    requires c < |ok| && k <= |ok|
    ensures match ScanAfter(ok, c, k)
            case Some(i) => NearestWithin(ok, c, k, i)
            case None => forall j :: 0 <= j < |ok| && Distance(|ok|, c, j) <= k ==> !ok[j]
    decreases k
  {
    if k > 0 {
      var n := |ok|;
      var s := Advance(n, c);
      ScanIsNearest(ok, s, k - 1);
      assert forall j :: 0 <= j < n && j != s ==> Distance(n, c, j) == Distance(n, s, j) + 1;
      assert Distance(n, c, s) == 1;
    }
  }

  // Starting after an in-range cursor: the usable server nearest after it, the cursor's own coming last;
  // none exactly when none is usable.
  lemma NextIsNearest(ok: seq<bool>, c: nat)
    requires c < |ok|
    ensures match NextUsable(ok, c)
            case Some(i) => NearestWithin(ok, c, |ok|, i)
            case None => NoneUsable(ok)
  {
    ScanIsNearest(ok, c, |ok|);
    assert forall j :: 0 <= j < |ok| ==> Distance(|ok|, c, j) <= |ok|;
  }

  // Starting at an in-range cursor: its own server if usable, else the nearest after it.
  lemma LastIsNearest(ok: seq<bool>, c: nat)
    requires c < |ok|
    ensures match LastUsable(ok, c)
            case Some(i) => if ok[c] then i == c else NearestWithin(ok, c, |ok|, i)
            case None => NoneUsable(ok)
  {
    ScanIsNearest(ok, c, |ok| - 1);
    assert forall j :: 0 <= j < |ok| ==> Distance(|ok|, c, j) < |ok| || j == c;
  }

  // A cursor past the end behaves like the last index for the one scan and like the first for the other.
  lemma PastTheEnd(ok: seq<bool>, c: nat)
    requires 0 < |ok| <= c
    ensures NextUsable(ok, c) == NextUsable(ok, |ok| - 1)
    ensures LastUsable(ok, c) == LastUsable(ok, 0)
  {
  }

  // The cursor after `k` rounds of a scan.
  function Steps(n: nat, c: nat, k: nat): (i: nat)
    requires n > 0
    ensures k > 0 || c < n ==> i < n
  {
    if k == 0 then c else Advance(n, Steps(n, c, k - 1))
  }

  // A cursor past the end never comes back to where it started.
  lemma {:induction false} PastTheEndNeverReturns(n: nat, c: nat, k: nat)
    requires 0 < n <= c && k > 0
    ensures Steps(n, c, k) < n && Steps(n, c, k) != c
  {
    if k > 1 {
      PastTheEndNeverReturns(n, c, k - 1);
    }
  }

  lemma {:induction false} InRangeReturns(n: nat, c: nat, k: nat)
    requires c < n && k <= n
    ensures Steps(n, c, k) == Ahead(n, c, k)
  {
    if k > 0 {
      InRangeReturns(n, c, k - 1);
    }
  }

  lemma {:induction false} PastTheEndVisits(n: nat, c: nat, i: nat)
    requires i < n <= c
    ensures Steps(n, c, i + 1) == i
  {
    if i > 0 {
      PastTheEndVisits(n, c, i - 1);
    }
  }

  predicate SomeUsable(ok: seq<bool>) {
    exists i :: 0 <= i < |ok| && ok[i]
  }

  // The loop of getNextServer is left in its round `k`: it stands on a usable server, or where it started.
  predicate NextLeaves(ok: seq<bool>, c: nat, k: nat)
    requires ok != [] && k > 0
  {
    ok[Steps(|ok|, c, k)] || Steps(|ok|, c, k) == c
  }

  // That of tryGetLastServer: it wraps the cursor, tests, steps, and then compares with its start.
  predicate LastLeaves(ok: seq<bool>, c: nat, k: nat)
    requires ok != [] && k > 0
  {
    var first := if c >= |ok| then 0 else c;
    ok[Steps(|ok|, first, k - 1)] || Steps(|ok|, first, k) == c
  }

  // Both loops end exactly when the cursor is in range or some server is usable.
  lemma NextEndsIff(ok: seq<bool>, c: nat)
    requires ok != []
    ensures (exists k: nat :: k > 0 && NextLeaves(ok, c, k)) <==> c < |ok| || SomeUsable(ok)
  {
    var n := |ok|;
    if c < n {
      InRangeReturns(n, c, n);
      assert NextLeaves(ok, c, n);
    } else if i :| 0 <= i < n && ok[i] {
      PastTheEndVisits(n, c, i);
      assert NextLeaves(ok, c, i + 1);
    }
  }

  lemma LastEndsIff(ok: seq<bool>, c: nat)
    requires ok != []
    ensures (exists k: nat :: k > 0 && LastLeaves(ok, c, k)) <==> c < |ok| || SomeUsable(ok)
  {
    var n := |ok|;
    if c < n {
      InRangeReturns(n, c, n);
      assert LastLeaves(ok, c, n);
    } else if i :| 0 <= i < n && ok[i] {
      InRangeReturns(n, 0, i);
      assert LastLeaves(ok, c, i + 1);
    }
  }

  // ---- The selection rules ----

  datatype Rule = Loop | Random | OneByOne | ChangeByTime | ForceOnlyOne | Inherit

  // filterValidServer, as indices.
  function UsableUpTo(ok: seq<bool>, k: nat): (r: seq<nat>)
    requires k <= |ok|
    ensures forall i :: i in r ==> i < k && ok[i]
    ensures forall i :: 0 <= i < k && ok[i] ==> i in r
  {
    if k == 0 then [] else UsableUpTo(ok, k - 1) + if ok[k - 1] then [k - 1] else []
  }

  // What a pick returns, where it leaves the cursor and the shared rotation time, and whether it rotated.
  datatype Choice = Choice(server: Option<nat>, cursor: nat, lastChange: int, rotated: bool)

  function Moved(r: Option<nat>, c: nat, lastChange: int, rotated: bool): Choice {
    match r
    case Some(i) => Choice(Some(i), i, lastChange, rotated)
    case None => Choice(None, c, lastChange, rotated)
  }

  // The clock is read as `now` to decide and, after a rotation, as `later` to stamp it.
  function ByTime(ok: seq<bool>, c: nat, lastChange: int, period: int, now: int, later: int): Choice {
    if now - lastChange > period then Moved(NextUsable(ok, c), c, later, true)
    else Moved(LastUsable(ok, c), c, lastChange, false)
  }

  // getServerByHint once the rule is settled; `draw` is the random number.
  function Choose(rule: Rule, ok: seq<bool>, c: nat, lastChange: int, period: int,
                  now: int, later: int, draw: nat): Choice
    requires rule.ForceOnlyOne? ==> c < |ok|
    requires (rule.Random? || rule.Inherit?) && UsableUpTo(ok, |ok|) != []
             ==> draw < |UsableUpTo(ok, |ok|)|
  {
    match rule
    case ForceOnlyOne => Choice(Some(c), c, lastChange, false)
    case Loop => Moved(NextUsable(ok, c), c, lastChange, false)
    case OneByOne => Moved(LastUsable(ok, c), c, lastChange, false)
    case ChangeByTime => ByTime(ok, c, lastChange, period, now, later)
    case _ =>
      var rs := UsableUpTo(ok, |ok|);
      Moved(if rs == [] then None else Some(rs[draw]), c, lastChange, false)
  }

  // Every rule but force_only_one returns only usable servers, and none exactly when none is usable; the
  // cursor rests, in range, on what was returned, and stays where it was when there is none.
  lemma ChoiceIsUsable(rule: Rule, ok: seq<bool>, c: nat, lastChange: int, period: int,
                       now: int, later: int, draw: nat)
    requires rule.ForceOnlyOne? ==> c < |ok|
    requires (rule.Random? || rule.Inherit?) && UsableUpTo(ok, |ok|) != []
             ==> draw < |UsableUpTo(ok, |ok|)|
    ensures var r := Choose(rule, ok, c, lastChange, period, now, later, draw);
            match r.server
            case Some(i) => i < |ok| && i == r.cursor && (!rule.ForceOnlyOne? ==> ok[i])
            case None => r.cursor == c && !rule.ForceOnlyOne? && NoneUsable(ok)
  {
    if ok != [] {
      if c >= |ok| {
        PastTheEnd(ok, c);
      }
      NextIsNearest(ok, if c < |ok| then c else |ok| - 1);
      LastIsNearest(ok, if c < |ok| then c else 0);
    }
    var rs := UsableUpTo(ok, |ok|);
    if (rule.Random? || rule.Inherit?) && rs != [] {
      assert rs[draw] in rs;
    }
  }

  // On to the usable server nearest after the cursor; nowhere if none is usable.
  ghost predicate GoesOn(ok: seq<bool>, c: nat, r: Choice)
    requires c < |ok|
  {
    if NoneUsable(ok) then r.server.None? && r.cursor == c
    else r.server == Some(r.cursor) && NearestWithin(ok, c, |ok|, r.cursor)
  }

  // The cursor's own server as long as that is usable.
  ghost predicate StaysOrGoesOn(ok: seq<bool>, c: nat, r: Choice)
    requires c < |ok|
  {
    if ok[c] then r.server == Some(c) && r.cursor == c else GoesOn(ok, c, r)
  }

  // What each rule does from a cursor in range.
  lemma ChoiceByRule(rule: Rule, ok: seq<bool>, c: nat, lastChange: int, period: int,
                     now: int, later: int, draw: nat)
    requires c < |ok|
    requires (rule.Random? || rule.Inherit?) && UsableUpTo(ok, |ok|) != []
             ==> draw < |UsableUpTo(ok, |ok|)|
    ensures var r := Choose(rule, ok, c, lastChange, period, now, later, draw);
            && (r.rotated <==> rule.ChangeByTime? && now - lastChange > period)
            && r.lastChange == (if r.rotated then later else lastChange)
            && match rule
               case Loop => GoesOn(ok, c, r)
               case OneByOne => StaysOrGoesOn(ok, c, r)
               case ChangeByTime => if r.rotated then GoesOn(ok, c, r) else StaysOrGoesOn(ok, c, r)
               case ForceOnlyOne => r.server == Some(c) && r.cursor == c
               case _ => if NoneUsable(ok) then r.server.None? && r.cursor == c
                         else r.server == Some(r.cursor) && r.cursor < |ok| && ok[r.cursor]
  {
    NextIsNearest(ok, c);
    LastIsNearest(ok, c);
    ChoiceIsUsable(rule, ok, c, lastChange, period, now, later, draw);
    hide NextUsable, LastUsable, UsableUpTo, NearestWithin;
  }

  lemma {:induction false} UsableUpToDistinct(ok: seq<bool>, k: nat)
    requires k <= |ok|
    ensures Distinct(UsableUpTo(ok, k))
  {
    if k > 0 {
      UsableUpToDistinct(ok, k - 1);
      var front := UsableUpTo(ok, k - 1);
      assert forall a :: 0 <= a < |front| ==> front[a] in front;
    }
  }

  // There are as many draws as usable servers.
  lemma DrawsAreUsable(ok: seq<bool>)
    ensures |UsableUpTo(ok, |ok|)| == |UsableSet(ok)|
  {
    var us := UsableUpTo(ok, |ok|);
    UsableUpToDistinct(ok, |ok|);
    DistinctCount(us);
    assert SetOf(us) == UsableSet(ok);
  }

  // Each usable server is what `random` returns for exactly one of them.
  lemma RandomReachesEach(ok: seq<bool>, c: nat, lastChange: int, period: int, now: int, later: int, i: nat)
    returns (d: nat)
    requires i < |ok| && ok[i]
    ensures d < |UsableSet(ok)| && |UsableSet(ok)| == |UsableUpTo(ok, |ok|)|
    ensures forall e: nat :: e < |UsableUpTo(ok, |ok|)| ==>
                               (Choose(Random, ok, c, lastChange, period, now, later, e).server == Some(i)
                                <==> e == d)
  {
    DrawsAreUsable(ok);
    UsableUpToDistinct(ok, |ok|);
    var us := UsableUpTo(ok, |ok|);
    assert i in us;
    d :| 0 <= d < |us| && us[d] == i;
  }

  // ---- Round robin ----

  // The clock reads and the random number of one selection.
  datatype Moment = Moment(now: int, later: int, draw: nat)

  // Consecutive selections by the `loop` rule, the cursor and the rotation time passed on.
  function LoopPicks(ok: seq<bool>, c: nat, lastChange: int, period: int, ms: seq<Moment>): seq<nat>
    decreases |ms|
  {
    if ms == [] then []
    else
      var r := Choose(Loop, ok, c, lastChange, period, ms[0].now, ms[0].later, ms[0].draw);
      match r.server
      case None => []
      case Some(i) => [i] + LoopPicks(ok, r.cursor, r.lastChange, period, ms[1..])
  }

  // The usable ones among the next `m` indices, in cyclic order.
  function Cyclic(ok: seq<bool>, c: nat, m: nat): seq<nat>
    requires |ok| > 0
    decreases m
  {
    if m == 0 then []
    else
      var i := Advance(|ok|, c);
      (if ok[i] then [i] else []) + Cyclic(ok, i, m - 1)
  }

  // An unusable index right after the cursor can be skipped.
  lemma SkipUnusable(ok: seq<bool>, c: nat)
    requires c < |ok| && !ok[Advance(|ok|, c)]
    ensures NextUsable(ok, c) == NextUsable(ok, Advance(|ok|, c))
  {
    var n := |ok|;
    var s := Advance(n, c);
    NextIsNearest(ok, c);
    NextIsNearest(ok, s);
    assert forall j :: 0 <= j < n && j != s ==> Distance(n, c, j) == Distance(n, s, j) + 1;
    if NextUsable(ok, c).Some? && NextUsable(ok, s).Some? {
      NearestIsOne(ok, s, NextUsable(ok, c).value, NextUsable(ok, s).value);
    }
  }

  lemma NearestIsOne(ok: seq<bool>, c: nat, i: nat, j: nat)
    requires c < |ok| && i < |ok| && j < |ok| && ok[i] && ok[j]
    requires forall k :: 0 <= k < |ok| && Distance(|ok|, c, k) < Distance(|ok|, c, j) ==> !ok[k]
    requires forall k :: 0 <= k < |ok| && Distance(|ok|, c, k) < Distance(|ok|, c, i) ==> !ok[k]
    ensures i == j
  {
    assert Distance(|ok|, c, i) == Distance(|ok|, c, j);
  }

  lemma {:induction false} PicksAreCyclic(ok: seq<bool>, c: nat, m: nat,
                                          lastChange: int, period: int, ms: seq<Moment>)
    requires c < |ok| && |ms| <= |Cyclic(ok, c, m)|
    ensures LoopPicks(ok, c, lastChange, period, ms) == Cyclic(ok, c, m)[..|ms|]
    decreases m
  {
    if ms != [] {
      var s := Advance(|ok|, c);
      if ok[s] {
        PicksAreCyclic(ok, s, m - 1, lastChange, period, ms[1..]);
      } else {
        SkipUnusable(ok, c);
        PicksAreCyclic(ok, s, m - 1, lastChange, period, ms);
        SamePicks(ok, c, s, lastChange, period, ms);
      }
    }
  }

  lemma SamePicks(ok: seq<bool>, c: nat, d: nat, lastChange: int, period: int, ms: seq<Moment>)
    requires c < |ok| && d < |ok| && NextUsable(ok, c) == NextUsable(ok, d)
    ensures LoopPicks(ok, c, lastChange, period, ms) == LoopPicks(ok, d, lastChange, period, ms)
  {
  }

  // One step nearer, for every index but the one stepped on, which goes to the far end.
  lemma StepNearer(n: nat, c: nat, j: nat)
    requires c < n && j < n
    ensures var s := Advance(n, c);
            if j == s then Distance(n, c, j) == 1 && Distance(n, s, j) == n
            else Distance(n, c, j) == Distance(n, s, j) + 1
  {
  }

  lemma {:induction false} CyclicMembers(ok: seq<bool>, c: nat, m: nat, i: nat)
    requires c < |ok| && m <= |ok|
    ensures i in Cyclic(ok, c, m) <==> i < |ok| && ok[i] && Distance(|ok|, c, i) <= m
    decreases m
  {
    if m > 0 {
      var s := Advance(|ok|, c);
      CyclicMembers(ok, s, m - 1, i);
      if i < |ok| {
        StepNearer(|ok|, c, i);
      }
    }
  }

  // Nearest first.
  ghost predicate Ordered(n: nat, c: nat, p: seq<nat>) {
    && (forall a :: 0 <= a < |p| ==> p[a] < n)
    && c < n
    && (forall a, b :: 0 <= a < b < |p| ==> Distance(n, c, p[a]) < Distance(n, c, p[b]))
  }

  lemma {:induction false} CyclicOrdered(ok: seq<bool>, c: nat, m: nat)
    requires c < |ok| && m <= |ok|
    ensures Ordered(|ok|, c, Cyclic(ok, c, m))
    decreases m
  {
    if m > 0 {
      var n := |ok|;
      var s := Advance(n, c);
      var rest := Cyclic(ok, s, m - 1);
      CyclicOrdered(ok, s, m - 1);
      forall a | 0 <= a < |rest|
        ensures Distance(n, c, rest[a]) == Distance(n, s, rest[a]) + 1
      {
        CyclicMembers(ok, s, m - 1, rest[a]);
        StepNearer(n, c, rest[a]);
      }
      StepNearer(n, c, s);
      PrependOrdered(n, c, if ok[s] then [s] else [], rest);
    }
  }

  lemma PrependOrdered(n: nat, c: nat, head: seq<nat>, rest: seq<nat>)
    requires Ordered(n, c, rest)
    requires head == [] || (|head| == 1 && head[0] < n && Distance(n, c, head[0]) == 1)
    requires forall a :: 0 <= a < |rest| ==> Distance(n, c, rest[a]) > 1
    ensures Ordered(n, c, head + rest)
  {
    var p := head + rest;
    assert forall a :: |head| <= a < |p| ==> p[a] == rest[a - |head|];
  }

  function UsableSet(ok: seq<bool>): set<nat> {
    set i: nat | i < |ok| && ok[i]
  }

  predicate Distinct(p: seq<nat>) {
    forall a, b :: 0 <= a < b < |p| ==> p[a] != p[b]
  }

  function SetOf(p: seq<nat>): set<nat> {
    set x | x in p
  }

  lemma {:induction false} DistinctCount(p: seq<nat>)
    requires Distinct(p)
    ensures |SetOf(p)| == |p|
  {
    if p == [] {
      assert SetOf(p) == {};
    } else {
      var front, last := p[..|p| - 1], p[|p| - 1];
      DistinctCount(front);
      SetOfSnoc(p, front, last);
    }
  }

  lemma SetOfSnoc(p: seq<nat>, front: seq<nat>, last: nat)
    requires p == front + [last] && Distinct(p)
    ensures SetOf(p) == SetOf(front) + {last} && last !in SetOf(front)
  {
    forall a | 0 <= a < |front|
      ensures front[a] != last
    {
      assert p[a] != p[|front|];
    }
  }

  // Round robin is fair: with pool and health fixed, as many consecutive selections by `loop` as there are
  // usable servers return each of them exactly once, in cyclic order from the cursor, whatever its position
  // and whatever the clock says.
  lemma RoundRobin(ok: seq<bool>, c: nat, lastChange: int, period: int, ms: seq<Moment>)
    requires c < |ok| && |ms| == |UsableSet(ok)|
    ensures var p := LoopPicks(ok, c, lastChange, period, ms);
            && |p| == |ms| && Distinct(p) && Ordered(|ok|, c, p)
            && forall i :: i in p <==> i in UsableSet(ok)
  {
    var n := |ok|;
    var p := Cyclic(ok, c, n);
    CyclicOrdered(ok, c, n);
    forall i
      ensures i in p <==> i in UsableSet(ok)
    {
      CyclicMembers(ok, c, n, i);
    }
    DistinctCount(p);
    assert SetOf(p) == UsableSet(ok);
    PicksAreCyclic(ok, c, n, lastChange, period, ms);
    assert p[..|p|] == p;
  }

  // ---- Rotation by time, over many picks and many cursors ----

  // One change_by_time pick: on which cursor, with which servers usable, and the two clock reads.
  datatype Pick = Pick(id: nat, ok: seq<bool>, now: int, later: int)

  // The clock does not run backwards, within a pick or from one to the next.
  predicate Chronological(ps: seq<Pick>) {
    && (forall i :: 0 <= i < |ps| ==> ps[i].now <= ps[i].later)
    && (forall i, j :: 0 <= i < j < |ps| ==> ps[i].later <= ps[j].now)
  }

  datatype Clocked = Clocked(cursors: map<nat, nat>, lastChange: int, rotations: seq<int>)

  function CursorOf(s: Clocked, id: nat): nat {
    if id in s.cursors then s.cursors[id] else 0
  }

  function PickStep(s: Clocked, period: int, p: Pick): Clocked {
    var r := ByTime(p.ok, CursorOf(s, p.id), s.lastChange, period, p.now, p.later);
    Clocked(s.cursors[p.id := r.cursor], r.lastChange,
            s.rotations + if r.rotated then [p.now] else [])
  }

  // The state after a list of picks; `rotations` collects the times at which one was decided.
  function PickRun(s: Clocked, period: int, ps: seq<Pick>): Clocked {
    if ps == [] then s
    else PickStep(PickRun(s, period, ps[..|ps| - 1]), period, ps[|ps| - 1])
  }

  // Rotations are more than a period apart, and the latest one is not after the stamp.
  predicate Spaced(rs: seq<int>, period: int) {
    forall i :: 0 < i < |rs| ==> rs[i] - rs[i - 1] > period
  }

  // So far, up to the time `until`.
  predicate SpacedState(t: Clocked, period: int, until: int) {
    && Spaced(t.rotations, period)
    && (t.rotations != [] ==>
          t.rotations[|t.rotations| - 1] <= t.lastChange && t.lastChange <= until)
  }

  lemma PickStepIsSpaced(a: Clocked, period: int, p: Pick, until: int)
    requires SpacedState(a, period, until) && until <= p.now <= p.later
    ensures SpacedState(PickStep(a, period, p), period, p.later)
  {
    hide NextUsable, LastUsable, CursorOf;
    var t := PickStep(a, period, p);
    if |t.rotations| > |a.rotations| {
      assert t.rotations == a.rotations + [p.now];
    } else {
      assert t.rotations == a.rotations;
    }
  }

  lemma {:induction false} RunIsSpaced(s: Clocked, period: int, ps: seq<Pick>)
    requires s.rotations == [] && Chronological(ps)
    ensures var t := PickRun(s, period, ps);
            && Spaced(t.rotations, period)
            && (t.rotations != [] ==>
                  && t.rotations[|t.rotations| - 1] <= t.lastChange
                  && ps != [] && t.lastChange <= ps[|ps| - 1].later)
  {
    if ps != [] {
      hide PickStep, Spaced;
      var front, p := ps[..|ps| - 1], ps[|ps| - 1];
      assert Chronological(front);
      RunIsSpaced(s, period, front);
      var a := PickRun(s, period, front);
      assert SpacedState(a, period, p.now);
      PickStepIsSpaced(a, period, p, p.now);
    }
  }

  lemma {:induction false} SpacedSpan(rs: seq<int>, period: int, k: nat)
    requires Spaced(rs, period) && 2 <= k <= |rs|
    ensures rs[k - 1] - rs[0] > (k - 1) * period
  {
    assert rs[k - 1] - rs[k - 2] > period;
    if k > 2 {
      SpacedSpan(rs, period, k - 1);
      assert (k - 1) * period == (k - 2) * period + period;
    }
  }

  // The rate bound: counted over all cursors that share the rotation time, any k >= 2 consecutive
  // rotations span more than k - 1 periods.
  lemma RotationRate(s: Clocked, period: int, ps: seq<Pick>, i: nat, k: nat)
    requires s.rotations == [] && Chronological(ps)
    requires 2 <= k && i + k <= |PickRun(s, period, ps).rotations|
    ensures var rs := PickRun(s, period, ps).rotations;
            rs[i + k - 1] - rs[i] > (k - 1) * period
  {
    RunIsSpaced(s, period, ps);
    var rs := PickRun(s, period, ps).rotations;
    var part := rs[i..i + k];
    assert forall j :: 0 <= j < k ==> part[j] == rs[i + j];
    SpacedSpan(part, period, k);
  }

  // Between rotations a cursor keeps returning its server while that stays usable, whatever picks on
  // other cursors come in between.
  lemma {:induction false} Sticky(s: Clocked, period: int, ps: seq<Pick>, id: nat, i: nat)
    requires CursorOf(s, id) == i
    requires forall j :: 0 <= j < |ps| && ps[j].id == id ==> i < |ps[j].ok| && ps[j].ok[i]
    requires PickRun(s, period, ps).rotations == s.rotations
    ensures CursorOf(PickRun(s, period, ps), id) == i
    ensures ps != [] && ps[|ps| - 1].id == id ==>
              var a := PickRun(s, period, ps[..|ps| - 1]);
              var p := ps[|ps| - 1];
              ByTime(p.ok, CursorOf(a, id), a.lastChange, period, p.now, p.later).server == Some(i)
  {
    if ps != [] {
      var front := ps[..|ps| - 1];
      RotationsGrow(s, period, front);
      Sticky(s, period, front, id, i);
    }
  }

  lemma {:induction false} RotationsGrow(s: Clocked, period: int, ps: seq<Pick>)
    ensures |PickRun(s, period, ps).rotations| >= |s.rotations|
    ensures |PickRun(s, period, ps).rotations| == |s.rotations|
            ==> PickRun(s, period, ps).rotations == s.rotations
  {
    if ps != [] {
      RotationsGrow(s, period, ps[..|ps| - 1]);
    }
  }
}
