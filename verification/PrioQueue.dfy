/** The priority queue of ugreen/tests/prio_queue.c: one list per level, taken from the
    front of the first level that is not empty, and a counter beside them. */
module PrioQueue {
  import opened Words

  const PRIO_LEVELS: nat := 3
  const EINVAL: int := 22

  /** A request as the queue sees it. */
  datatype Request = Request(id: nat, priority: int)

  type Levels<T> = q: seq<seq<T>> | |q| == PRIO_LEVELS witness [[], [], []]

  predicate ValidPriority(p: int) {
    0 <= p < PRIO_LEVELS
  }

  function Put<T>(q: Levels<T>, p: int, x: T): Levels<T> {
    if ValidPriority(p) then q[p := q[p] + [x]] else q
  }

  /** The first level that has a request, or PRIO_LEVELS. */
  function FirstLevel<T>(q: Levels<T>, from: nat): nat
    requires from <= PRIO_LEVELS
    decreases PRIO_LEVELS - from
  {
    if from == PRIO_LEVELS || q[from] != [] then from else FirstLevel(q, from + 1)
  }

  function Get<T>(q: Levels<T>): (Option<T>, Levels<T>) {
    var l := FirstLevel(q, 0);
    if l < PRIO_LEVELS && q[l] != [] then (Some(q[l][0]), q[l := q[l][1..]]) else (None, q)
  }

  function Total<T>(q: Levels<T>): nat {
    |q[0]| + |q[1]| + |q[2]|
  }

  lemma PutTotal<T>(q: Levels<T>, p: int, x: T)
    ensures Total(Put(q, p, x)) == Total(q) + (if ValidPriority(p) then 1 else 0)
  {
  }

  /** A request comes from the front of its level and no lower-numbered level has one; nothing
      comes only from an empty queue. */
  lemma GetTakes<T>(q: Levels<T>)
    ensures var (r, q') := Get(q);
            if r.None? then Total(q) == 0 && q' == q
            else exists l: nat :: l < PRIO_LEVELS && q[l] == [r.value] + q'[l] && q' == q[l := q'[l]]
                   && (forall k: nat :: k < l ==> q[k] == []) && Total(q) == Total(q') + 1
  {
    var l := FirstLevel(q, 0);
    if l < PRIO_LEVELS && q[l] != [] {
      var (r, q') := Get(q);
      assert q[l] == [r.value] + q'[l];
    }
  }

  /** Exactly the priorities 0, 1 and 2 are accepted, each to the end of its own list. */
  lemma PutAppends<T>(q: Levels<T>, p: int, x: T)
    ensures Put(q, p, x) ==
              if p == 0 then [q[0] + [x], q[1], q[2]]
              else if p == 1 then [q[0], q[1] + [x], q[2]]
              else if p == 2 then [q[0], q[1], q[2] + [x]]
              else q
  {
  }

  // ---------- Runs ----------

  datatype Op = PutOp(req: Request) | GetOp

  /** `arrived` lists the accepted requests and `taken` the returned ones, in order. */
  datatype Log = Log(q: Levels<Request>, count: int, arrived: seq<Request>, taken: seq<Request>)

  function Perform(s: Log, op: Op): Log {
    match op
    case PutOp(r) =>
      if ValidPriority(r.priority) then
        s.(q := Put(s.q, r.priority, r), count := s.count + 1, arrived := s.arrived + [r])
      else s
    case GetOp =>
      var (r, q') := Get(s.q);
      match r
      case None => s
      case Some(x) => s.(q := q', count := s.count - 1, taken := s.taken + [x])
  }

  function Run(s: Log, ops: seq<Op>): Log
    decreases |ops|
  {
    if ops == [] then s else Run(Perform(s, ops[0]), ops[1..])
  }

  /** The requests of one level, in order. */
  function OfLevel(s: seq<Request>, l: int): seq<Request> {
    if s == [] then []
    else OfLevel(s[..|s| - 1], l) + (if s[|s| - 1].priority == l then [s[|s| - 1]] else [])
  }

  lemma OfLevelAppend(s: seq<Request>, r: Request, l: int)
    ensures OfLevel(s + [r], l) == OfLevel(s, l) + (if r.priority == l then [r] else [])
  {
    assert (s + [r])[..|s|] == s;
  }

  /** Level by level, what was accepted is what was returned followed by what is queued. */
  ghost predicate Conserved(s: Log) {
    && s.count == Total(s.q)
    && (forall l: nat :: l < PRIO_LEVELS ==> OfLevel(s.arrived, l) == OfLevel(s.taken, l) + s.q[l])
    && (forall l: nat, i :: l < PRIO_LEVELS && 0 <= i < |s.q[l]| ==> s.q[l][i].priority == l)
    && (forall r :: r in s.arrived ==> ValidPriority(r.priority))
  }

  lemma PutConserves(s: Log, r: Request)
    requires Conserved(s) && ValidPriority(r.priority)
    ensures Conserved(Perform(s, PutOp(r)))
  {
    PutTotal(s.q, r.priority, r);
    var q' := Put(s.q, r.priority, r);
    forall l: nat | l < PRIO_LEVELS ensures OfLevel(s.arrived + [r], l) == OfLevel(s.taken, l) + q'[l] {
      OfLevelAppend(s.arrived, r, l);
      Reassociate(OfLevel(s.taken, l), s.q[l], [r]);
    }
  }

  lemma Reassociate(a: seq<Request>, b: seq<Request>, c: seq<Request>)
    ensures a + b + c == a + (b + c)
  {
  }

  lemma TakeConserves(s: Log, r: Request, k: nat, q': Levels<Request>)
    requires Conserved(s) && k < PRIO_LEVELS && s.q[k] == [r] + q'[k] && q' == s.q[k := q'[k]]
    requires Total(s.q) == Total(q') + 1
    ensures Conserved(Log(q', s.count - 1, s.arrived, s.taken + [r]))
  {
    assert s.q[k][0].priority == k;
    forall i | 0 <= i < |q'[k]| ensures q'[k][i].priority == k {
      assert q'[k][i] == s.q[k][i + 1];
    }
    forall l: nat | l < PRIO_LEVELS ensures OfLevel(s.arrived, l) == OfLevel(s.taken + [r], l) + q'[l] {
      OfLevelAppend(s.taken, r, l);
      assert OfLevel(s.arrived, l) == OfLevel(s.taken, l) + s.q[l];
    }
  }

  lemma GetConserves(s: Log)
    requires Conserved(s)
    ensures Conserved(Perform(s, GetOp))
  {
    GetTakes(s.q);
    var (x, q') := Get(s.q);
    if x.Some? {
      var k: nat :| k < PRIO_LEVELS && s.q[k] == [x.value] + q'[k] && q' == s.q[k := q'[k]];
      TakeConserves(s, x.value, k, q');
    }
  }

  lemma PerformConserves(s: Log, op: Op)
    requires Conserved(s)
    ensures Conserved(Perform(s, op))
  {
    match op {
      case PutOp(r) =>
        if ValidPriority(r.priority) {
          PutConserves(s, r);
        }
      case GetOp => GetConserves(s);
    }
  }

  /** In every run the counter is the number of queued requests, and each level is first in,
      first out without loss or repetition. */
  lemma {:induction false} RunConserves(s: Log, ops: seq<Op>)
    requires Conserved(s)
    ensures Conserved(Run(s, ops))
    decreases |ops|
  {
    if ops == [] {
    } else {
      PerformConserves(s, ops[0]);
      RunConserves(Perform(s, ops[0]), ops[1..]);
    }
  }

  /** The accepted requests of a run are its puts of priority 0, 1 and 2, in order. */
  function Accepted(ops: seq<Op>): seq<Request>
    decreases |ops|
  {
    if ops == [] then []
    else (if ops[0].PutOp? && 0 <= ops[0].req.priority <= 2 then [ops[0].req] else []) + Accepted(ops[1..])
  }

  lemma {:induction false} ArrivedAre(s: Log, ops: seq<Op>)
    ensures Run(s, ops).arrived == s.arrived + Accepted(ops)
    decreases |ops|
  {
    if ops == [] {
    } else {
      ArrivedAre(Perform(s, ops[0]), ops[1..]);
      var first := if ops[0].PutOp? && 0 <= ops[0].req.priority <= 2 then [ops[0].req] else [];
      assert Perform(s, ops[0]).arrived == s.arrived + first;
      Reassociate(s.arrived, first, Accepted(ops[1..]));
    }
  }

  const EMPTY: Log := Log([[], [], []], 0, [], [])

  // ---------- Draining is stable sorting ----------

  function Drain<T>(q: Levels<T>): seq<T>
    decreases Total(q)
  {
    var (r, q') := Get(q);
    GetTakes(q);
    if r.None? then [] else [r.value] + Drain(q')
  }

  lemma {:induction false} DrainIs<T>(q: Levels<T>)
    ensures Drain(q) == q[0] + q[1] + q[2]
    decreases Total(q)
  {
    GetTakes(q);
    var (r, q') := Get(q);
    if r.Some? {
      DrainIs(q');
      var l: nat :| l < PRIO_LEVELS && q[l] == [r.value] + q'[l] && q' == q[l := q'[l]]
                    && forall k: nat :: k < l ==> q[k] == [];
      assert q[0] + q[1] + q[2] == [r.value] + (q'[0] + q'[1] + q'[2]);
    }
  }

  predicate Sorted(s: seq<Request>) {
    forall i, j :: 0 <= i < j < |s| ==> s[i].priority <= s[j].priority
  }

  /** `t` holds the requests of `s` by priority, equal ones in the order of `s`. */
  ghost predicate StableSort(s: seq<Request>, t: seq<Request>) {
    Sorted(t) && forall l: int :: OfLevel(t, l) == OfLevel(s, l)
  }

  lemma {:induction false} OfLevelConcat(s: seq<Request>, t: seq<Request>, l: int)
    ensures OfLevel(s + t, l) == OfLevel(s, l) + OfLevel(t, l)
    decreases |t|
  {
    if t == [] {
      assert s + t == s;
    } else {
      var n := |t| - 1;
      assert (s + t)[..|s| + n] == s + t[..n];
      OfLevelConcat(s, t[..n], l);
    }
  }

  lemma {:induction false} OfLevelUniform(s: seq<Request>, k: int, l: int)
    requires Uniform(s, k)
    ensures OfLevel(s, l) == if k == l then s else []
    decreases |s|
  {
    if s == [] {
    } else {
      OfLevelUniform(s[..|s| - 1], k, l);
      assert s == s[..|s| - 1] + [s[|s| - 1]];
    }
  }

  lemma {:induction false} OfLevelNone(s: seq<Request>, l: int)
    requires forall r :: r in s ==> r.priority != l
    ensures OfLevel(s, l) == []
    decreases |s|
  {
    if s == [] {
    } else {
      OfLevelNone(s[..|s| - 1], l);
    }
  }

  /** Draining returns every level whole, and the levels in order. */
  lemma DrainByLevel(q: Levels<Request>)
    requires forall l: nat, i :: l < PRIO_LEVELS && 0 <= i < |q[l]| ==> q[l][i].priority == l
    ensures Sorted(Drain(q))
    ensures forall l: int :: OfLevel(Drain(q), l) == if 0 <= l < PRIO_LEVELS then q[l] else []
  {
    DrainIs(q);
    SortedLevels(q[0], q[1], q[2]);
    forall l: int ensures OfLevel(Drain(q), l) == if 0 <= l < PRIO_LEVELS then q[l] else [] {
      LevelsOf(q[0], q[1], q[2], l);
    }
  }

  predicate Uniform(s: seq<Request>, k: int) {
    forall i :: 0 <= i < |s| ==> s[i].priority == k
  }

  lemma SortedLevels(a: seq<Request>, b: seq<Request>, c: seq<Request>)
    requires Uniform(a, 0) && Uniform(b, 1) && Uniform(c, 2)
    ensures Sorted(a + b + c)
  {
  }

  lemma LevelsOf(a: seq<Request>, b: seq<Request>, c: seq<Request>, l: int)
    requires Uniform(a, 0) && Uniform(b, 1) && Uniform(c, 2)
    ensures OfLevel(a + b + c, l) == if l == 0 then a else if l == 1 then b else if l == 2 then c else []
  {
    OfLevelConcat(a + b, c, l);
    OfLevelConcat(a, b, l);
    OfLevelUniform(a, 0, l);
    OfLevelUniform(b, 1, l);
    OfLevelUniform(c, 2, l);
    OnlyOne(OfLevel(a, l), OfLevel(b, l), OfLevel(c, l));
  }

  lemma OnlyOne(x: seq<Request>, y: seq<Request>, z: seq<Request>)
    ensures y == [] && z == [] ==> x + y + z == x
    ensures x == [] && z == [] ==> x + y + z == y
    ensures x == [] && y == [] ==> x + y + z == z
  {
  }

  /** Draining a queue that has only been filled returns the stable sort by priority of
      everything that was accepted. */
  lemma DrainSorts(ops: seq<Op>)
    requires forall k :: 0 <= k < |ops| ==> ops[k].PutOp?
    ensures var s := Run(EMPTY, ops); StableSort(s.arrived, Drain(s.q))
  {
    var s := Run(EMPTY, ops);
    RunConserves(EMPTY, ops);
    PutsTakeNothing(EMPTY, ops);
    DrainByLevel(s.q);
    forall l: int ensures OfLevel(Drain(s.q), l) == OfLevel(s.arrived, l) {
      if 0 <= l < PRIO_LEVELS {
        assert OfLevel(s.arrived, l) == OfLevel([], l) + s.q[l];
      } else {
        OfLevelNone(s.arrived, l);
      }
    }
  }

  lemma {:induction false} PutsTakeNothing(s: Log, ops: seq<Op>)
    requires forall k :: 0 <= k < |ops| ==> ops[k].PutOp?
    ensures Run(s, ops).taken == s.taken
    decreases |ops|
  {
    if ops == [] {
    } else {
      PutsTakeNothing(Perform(s, ops[0]), ops[1..]);
    }
  }

  /** There is only one stable sort. */
  lemma {:induction false} StableSortUnique(s: seq<Request>, t: seq<Request>)
    requires Sorted(s) && Sorted(t) && forall l: int :: OfLevel(s, l) == OfLevel(t, l)
    ensures s == t
    decreases |s|
  {
    if s == [] {
      if t != [] {
        LevelLast(t);
      }
    } else {
      var n, m, r := |s| - 1, |t| - 1, s[|s| - 1];
      LevelMember(s, r);
      LevelMember(t, r);
      var last := t[m];
      LevelMember(t, last);
      LevelMember(s, last);
      assert last.priority == r.priority;
      LevelLast(s);
      LevelLast(t);
      assert s[n] == t[m];
      forall l: int ensures OfLevel(s[..n], l) == OfLevel(t[..m], l) {
        LevelWithoutLast(s, l);
        LevelWithoutLast(t, l);
      }
      StableSortUnique(s[..n], t[..m]);
    }
  }

  lemma LevelWithoutLast(s: seq<Request>, l: int)
    requires s != []
    ensures var n, f := |s| - 1, OfLevel(s, l);
            OfLevel(s[..n], l) == if s[n].priority == l && f != [] then f[..|f| - 1] else f
  {
  }

  lemma {:induction false} LevelMember(s: seq<Request>, r: Request)
    ensures r in s <==> r in OfLevel(s, r.priority)
    decreases |s|
  {
    if s == [] {
    } else {
      LevelMember(s[..|s| - 1], r);
      assert s == s[..|s| - 1] + [s[|s| - 1]];
    }
  }

  lemma LevelLast(s: seq<Request>)
    requires s != []
    ensures var f := OfLevel(s, s[|s| - 1].priority); f != [] && f[|f| - 1] == s[|s| - 1]
  {
  }

  // ---------- The queue in place ----------

  class Queue<T(==)> {
    const queues: array<seq<T>>
    var count: int

    ghost predicate Valid()
      reads this, queues
    {
      queues.Length == PRIO_LEVELS && count == Total(queues[..])
    }

    constructor ()
      ensures Valid() && fresh(queues) && queues[..] == [[], [], []]
    {
      queues := new seq<T>[PRIO_LEVELS](_ => []);
      count := 0;
    }

    method PrioQueuePut(x: T, priority: int) returns (ret: int)
      requires Valid()
      modifies this, queues
      ensures Valid() && queues[..] == Put(old(queues[..]), priority, x)
      ensures ret == if ValidPriority(priority) then 0 else -EINVAL
    {
      if priority >= PRIO_LEVELS || priority < 0 {
        return -EINVAL;
      }
      PutTotal(queues[..], priority, x);
      queues[priority] := queues[priority] + [x];
      count := count + 1;
      ret := 0;
    }

    method PrioQueueGet() returns (req: Option<T>)
      requires Valid()
      modifies this, queues
      ensures Valid() && (req, queues[..]) == Get(old(queues[..]))
    {
      GetTakes(queues[..]);
      req := None;
      var level := 0;
      while level < PRIO_LEVELS
        invariant level <= PRIO_LEVELS && count == old(count) && queues[..] == old(queues[..])
        invariant FirstLevel(queues[..], 0) == FirstLevel(queues[..], level)
      {
        if queues[level] != [] {
          req := Some(queues[level][0]);
          queues[level] := queues[level][1..];
          count := count - 1;
          return;
        }
        level := level + 1;
      }
    }
  }
}
