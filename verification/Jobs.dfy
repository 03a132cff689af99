/** The jobs the shell knows of, kept in the order in which they were added. */
module Jobs {
  import opened Options

  datatype JobState = Running | Stopped | Done

  datatype Job = Job(id: int, pgid: int, state: JobState, cmdline: string, pids: seq<int>, nleft: nat, lastStatus: int)

  /** One report about a process; `status` is the raw wait status. */
  datatype Report = Exited(status: int) | Signaled(status: int) | StoppedBy(status: int) | Continued(status: int)

  function Ids(t: seq<Job>): set<int> { set j | j in t :: j.id }

  /** Ids are positive and distinct. */
  ghost predicate WellNumbered(t: seq<Job>) {
    && (forall i | 0 <= i < |t| :: t[i].id >= 1)
    && (forall i, j | 0 <= i < j < |t| :: t[i].id != t[j].id)
  }

  predicate LeastFree(t: seq<Job>, id: int) {
    id >= 1 && id !in Ids(t) && forall x | 1 <= x < id :: x in Ids(t)
  }

  lemma {:induction false} IdsCount(t: seq<Job>)
    ensures |Ids(t)| <= |t|
  {
    if t != [] {
      IdsCount(t[1..]);
      assert Ids(t) == Ids(t[1..]) + {t[0].id};
    }
  }

  function UpTo(n: nat): (s: set<int>)
    ensures |s| == n && forall x :: x in s <==> 1 <= x <= n
  {
    if n == 0 then {} else UpTo(n - 1) + {n}
  }

  /** Pigeonhole: `n` jobs cannot hold all of the ids 1 to `n + 1`. */
  lemma Pigeonhole(t: seq<Job>, n: nat)
    requires forall x | 1 <= x <= n :: x in Ids(t)
    ensures n <= |t|
  {
    IdsCount(t);
    assert UpTo(n) <= Ids(t);
    Subset(UpTo(n), Ids(t));
  }

  lemma {:induction false} Subset<T>(a: set<T>, b: set<T>)
    requires a <= b
    ensures |a| <= |b|
    decreases |a|
  {
    if a != {} {
      var x :| x in a;
      Subset(a - {x}, b - {x});
    }
  }

  // ---- Pruning ---------------------------------------------------------------------

  /** The jobs that stay when the finished ones are pruned, in their order. */
  function NotDone(t: seq<Job>): seq<Job> {
    if t == [] then [] else (if t[0].state == Done then [] else [t[0]]) + NotDone(t[1..])
  }

  function DoneJobs(t: seq<Job>): set<Job> { set j | j in t && j.state == Done }

  function Without(t: seq<Job>, i: nat): seq<Job>
    requires i < |t|
  {
    t[..i] + t[i + 1..]
  }

  lemma {:induction false} NotDoneWithout(t: seq<Job>, i: nat)
    requires i < |t| && t[i].state == Done
    ensures NotDone(Without(t, i)) == NotDone(t)
  {
    if i == 0 {
      assert Without(t, 0) == t[1..];
    } else {
      assert Without(t, i)[0] == t[0] && Without(t, i)[1..] == Without(t[1..], i - 1);
      NotDoneWithout(t[1..], i - 1);
    }
  }

  /** One more job moved down over the gap. */
  lemma ShiftNext(t: seq<Job>, i: nat, k: nat)
    requires i < k < |t|
    ensures var u := t[..i] + t[i + 1..k] + t[k - 1..];
            u[k] == t[k] && u[k - 1 := t[k]] == t[..i] + t[i + 1..k + 1] + t[k..]
  {
    var u, v := t[..i] + t[i + 1..k] + t[k - 1..], t[..i] + t[i + 1..k + 1] + t[k..];
    forall x | 0 <= x < |t| ensures u[k - 1 := t[k]][x] == v[x] {}
  }

  lemma DoneWithout(t: seq<Job>, i: nat)
    requires WellNumbered(t) && i < |t| && t[i].state == Done
    ensures DoneJobs(Without(t, i)) == DoneJobs(t) - {t[i]} && WellNumbered(Without(t, i))
  {
    var u := Without(t, i);
    forall k | 0 <= k < |u| ensures u[k] == t[if k < i then k else k + 1] {}
    forall j | j in t && j != t[i] ensures j in u {
      var k :| 0 <= k < |t| && t[k] == j;
      assert j == u[if k < i then k else k - 1];
    }
  }

  lemma {:induction false} NothingDone(t: seq<Job>)
    requires forall i | 0 <= i < |t| :: t[i].state != Done
    ensures NotDone(t) == t && DoneJobs(t) == {}
  {
    if t != [] {
      assert forall i | 0 <= i < |t[1..]| :: t[1..][i] == t[i + 1];
      NothingDone(t[1..]);
    }
  }

  // ---- The current job ----------------------------------------------------------------

  /** The last job in the given state. */
  function LastIn(t: seq<Job>, state: JobState): Option<Job> {
    if t == [] then None
    else if t[|t| - 1].state == state then Some(t[|t| - 1])
    else LastIn(t[..|t| - 1], state)
  }

  /** The most recently added stopped job, or else the most recently added running one. */
  function Current(t: seq<Job>): Option<Job> {
    if LastIn(t, Stopped).Some? then LastIn(t, Stopped) else LastIn(t, Running)
  }

  lemma {:induction false} LastInSplit(a: seq<Job>, b: seq<Job>, state: JobState)
    ensures LastIn(a + b, state) == if LastIn(b, state).Some? then LastIn(b, state) else LastIn(a, state)
    decreases |b|
  {
    if b == [] {
      assert a + b == a;
    } else {
      assert (a + b)[..|a + b| - 1] == a + b[..|b| - 1];
      LastInSplit(a, b[..|b| - 1], state);
    }
  }

  lemma {:induction false} LastInNotDone(t: seq<Job>, state: JobState)
    requires state != Done
    ensures LastIn(NotDone(t), state) == LastIn(t, state)
  {
    if t != [] {
      var h := if t[0].state == Done then [] else [t[0]];
      LastInNotDone(t[1..], state);
      assert t == [t[0]] + t[1..];
      LastInSplit([t[0]], t[1..], state);
      LastInSplit(h, NotDone(t[1..]), state);
      assert [t[0]][..0] == [];
    }
  }

  /** Pruning keeps the current job, because the rest keep their order. */
  lemma {:induction false} CurrentSurvives(t: seq<Job>)
    ensures Current(NotDone(t)) == Current(t)
  {
    LastInNotDone(t, Stopped);
    LastInNotDone(t, Running);
  }

  /** The last job in the state, found by its place. */
  lemma {:induction false} LastInIs(t: seq<Job>, state: JobState) returns (i: int)
    ensures -1 <= i < |t|
    ensures LastIn(t, state) == if i < 0 then None else Some(t[i])
    ensures (i >= 0 ==> t[i].state == state) && forall x | i < x < |t| :: t[x].state != state
    decreases |t|
  {
    i := |t| - 1;
    if t != [] && t[i].state != state {
      i := LastInIs(t[..i], state);
    }
  }

  class JobTable {
    var table: seq<Job>

    ghost predicate Valid()
      reads this
    {
      WellNumbered(table)
    }

    constructor ()
      ensures Valid() && table == []
    {
      table := [];
    }

    method ById(id: int) returns (i: Option<nat>)
      ensures i.Some? ==> i.value < |table| && table[i.value].id == id
      ensures i.None? <==> id !in Ids(table)
    {
      var k := 0;
      while k < |table|
        invariant k <= |table| && forall x | 0 <= x < k :: table[x].id != id
      {
        if table[k].id == id {
          return Some(k);
        }
        k := k + 1;
      }
      i := None;
    }

    /** The least id not in use; there is one among the first `count + 1`. */
    method NextId() returns (id: int)
      ensures LeastFree(table, id) && id <= |table| + 1
    {
      id := 1;
      while true
        invariant id >= 1 && forall x | 1 <= x < id :: x in Ids(table)
        decreases |table| + 1 - id
      {
        Pigeonhole(table, id - 1);
        var taken := ById(id);
        if taken.None? {
          return;
        }
        id := id + 1;
      }
    }

    method Add(pgid: int, pids: seq<int>, cmdline: string) returns (j: Job)
      requires Valid()
      modifies this
      ensures Valid() && table == old(table) + [j] && LeastFree(old(table), j.id)
      ensures j == Job(j.id, pgid, Running, cmdline, pids, |pids|, 0)
    {
      var id := NextId();
      j := Job(id, pgid, Running, cmdline, pids, |pids|, 0);
      table := table + [j];
    }

    /** The first job that owns the process. */
    method OfPid(pid: int) returns (i: nat)
      ensures i <= |table| && (i < |table| ==> pid in table[i].pids)
      ensures forall x | 0 <= x < i :: pid !in table[x].pids
    {
      i := 0;
      while i < |table|
        invariant i <= |table| && forall x | 0 <= x < i :: pid !in table[x].pids
      {
        var k := 0;
        while k < |table[i].pids|
          invariant k <= |table[i].pids| && pid !in table[i].pids[..k]
        {
          if table[i].pids[k] == pid {
            return;
          }
          k := k + 1;
        }
        assert table[i].pids[..k] == table[i].pids;
        i := i + 1;
      }
    }

    /** Only an end counts as a report, and the last one finishes the job; a stop or a
        continue only changes the state. */
    method Update(pid: int, r: Report) returns (found: bool, ghost i: nat)
      requires Valid()
      modifies this
      ensures Valid() && i <= |old(table)| && found == (i < |old(table)|)
      ensures forall x | 0 <= x < i :: pid !in old(table)[x].pids
      ensures !found ==> table == old(table)
      ensures found ==> pid in old(table)[i].pids && i < |table| && table == old(table)[i := table[i]]
      ensures found ==>
                var j, j' := old(table)[i], table[i];
                && j'.id == j.id && j'.pgid == j.pgid && j'.cmdline == j.cmdline && j'.pids == j.pids
                && (r.StoppedBy? || r.Continued? ==>
                      j'.state == (if r.StoppedBy? then Stopped else Running)
                      && j'.nleft == j.nleft && j'.lastStatus == j.lastStatus)
                && (r.Exited? || r.Signaled? ==>
                      j'.lastStatus == r.status && j'.state == (if j.nleft == 1 then Done else j.state)
                      && j'.nleft == if j.nleft == 0 then 0 else j.nleft - 1)
    {
      var k := OfPid(pid);
      i := k;
      found := k < |table|;
      if !found {
        return;
      }
      var j := table[k];
      if r.Exited? || r.Signaled? {
        j := j.(lastStatus := r.status);
        if j.nleft > 0 {
          j := j.(nleft := j.nleft - 1);
          if j.nleft == 0 { j := j.(state := Done); }
        }
      } else if r.StoppedBy? {
        j := j.(state := Stopped);
      } else if r.Continued? {
        j := j.(state := Running);
      }
      table := table[k := j];
    }

    /** Closes the gap at `i`, keeping the order of the rest. */
    method Remove(i: nat)
      requires i < |table|
      modifies this
      ensures table == Without(old(table), i)
    {
      var k := i + 1;
      while k < |table|
        invariant i < k <= |table| == |old(table)|
        invariant table == old(table)[..i] + old(table)[i + 1..k] + old(table)[k - 1..]
      {
        ShiftNext(old(table), i, k);
        table := table[k - 1 := table[k]];
        k := k + 1;
      }
      table := table[..|table| - 1];
    }

    /** The finished job with the least id, or the table's length. */
    method LeastDone() returns (pick: nat)
      requires Valid()
      ensures pick <= |table| && (pick < |table| ==> table[pick].state == Done)
      ensures forall i | 0 <= i < |table| && table[i].state == Done :: pick < |table| && table[pick].id <= table[i].id
    {
      pick := |table|;
      var i := 0;
      while i < |table|
        invariant i <= |table| && (pick == |table| || (pick < i && table[pick].state == Done))
        invariant forall k | 0 <= k < i && table[k].state == Done :: pick < |table| && table[pick].id <= table[k].id
      {
        if table[i].state == Done && (pick == |table| || table[i].id < table[pick].id) {
          pick := i;
        }
        i := i + 1;
      }
    }

    /** Reports the finished jobs, lowest id first, and prunes them. */
    method ReapNotify() returns (reported: seq<Job>)
      requires Valid()
      modifies this
      ensures Valid() && table == NotDone(old(table))
      ensures forall j :: j in reported <==> j in DoneJobs(old(table))
      ensures forall i, k | 0 <= i < k < |reported| :: reported[i].id < reported[k].id
    {
      hide NotDone, WellNumbered, DoneJobs;
      reported := [];
      while true
        invariant Valid() && NotDone(table) == NotDone(old(table))
        invariant forall j :: j in DoneJobs(old(table)) <==> j in reported || j in DoneJobs(table)
        invariant forall i, k | 0 <= i < k < |reported| :: reported[i].id < reported[k].id
        invariant forall i, j | 0 <= i < |reported| && j in DoneJobs(table) :: reported[i].id < j.id
        decreases |table|
      {
        var pick := LeastDone();
        if pick == |table| {
          NothingDone(table);
          return;
        }
        var j := table[pick];
        LeastLeft(table, pick);
        NotDoneWithout(table, pick);
        DoneWithout(table, pick);
        reported := reported + [j];
        Remove(pick);
      }
    }

    /** The job added last among the stopped ones; if none is stopped, the one added last
        among the running ones. */
    method CurrentJob() returns (j: Option<Job>)
      ensures j == Current(table)
      ensures j.None? ==> forall x | 0 <= x < |table| :: table[x].state == Done
      ensures j.Some? ==>
                exists i :: 0 <= i < |table| && j.value == table[i]
                            && (table[i].state == Stopped || table[i].state == Running)
                            && (forall x | i < x < |table| :: table[x].state != table[i].state)
                            && (table[i].state == Running ==> forall x | 0 <= x < |table| :: table[x].state != Stopped)
    {
      j := Last(Stopped);
      ghost var stopped := LastInIs(table, Stopped);
      ghost var running := LastInIs(table, Running);
      if j.None? { j := Last(Running); }
    }

    method Last(state: JobState) returns (j: Option<Job>)
      ensures j == LastIn(table, state)
    {
      var i := |table|;
      assert table[..i] == table;
      while i > 0
        invariant i <= |table| && LastIn(table, state) == LastIn(table[..i], state)
      {
        assert table[..i][..i - 1] == table[..i - 1];
        if table[i - 1].state == state {
          return Some(table[i - 1]);
        }
        i := i - 1;
      }
      j := None;
    }
  }

  lemma LeastLeft(t: seq<Job>, pick: nat)
    requires WellNumbered(t) && pick < |t| && t[pick].state == Done
    requires forall i | 0 <= i < |t| && t[i].state == Done :: t[pick].id <= t[i].id
    ensures t[pick] in DoneJobs(t)
    ensures forall j | j in DoneJobs(t) && j != t[pick] :: t[pick].id < j.id
  {
    forall j | j in DoneJobs(t) && j != t[pick] ensures t[pick].id < j.id {
      var k :| 0 <= k < |t| && t[k] == j;
    }
  }
}
