/** The sidecar lock of internal/bundle: lock_open.go, lock_unix.go, rooted.go and
    rooted_unix.go as steps of any number of concurrent callers over one lock file name. */
module Lock {
  import opened Wrappers

  type Pid = nat
  type Inode = nat

  /** `lockPath` or `lockPathRooted`. */
  datatype Kind = Plain | Rooted

  /** Where a caller stands; `created` is the flag captured by lockPath's release closure. */
  datatype Place =
    | Idle
    | MustOpen
    | Opened(inode: Inode, created: bool)
    | Holding(inode: Inode, created: bool)
    | Unlocked(created: bool)
    | Closed

  /** The callers, the inode the name refers to, who holds each inode's flock, and the next
      inode the file system will hand out. */
  datatype Sys = Sys(
    kinds: map<Pid, Kind>, places: map<Pid, Place>, sidecar: Option<Inode>, locks: map<Inode, Pid>, next: Inode)

  datatype Action = CreateExclusive | OpenExisting | OpenOrCreate | Flock | Unlock | Close | Remove | GiveUp | Die

  function Go(s: Sys, p: Pid, place: Place): Sys
  {
    s.(places := s.places[p := place])
  }

  function Created(s: Sys, p: Pid, flag: bool): Sys
  {
    Go(s, p, Opened(s.next, flag)).(sidecar := Some(s.next), next := s.next + 1)
  }

  /** One system call of caller `p`; a call it cannot make here changes nothing. */
  function Next(s: Sys, p: Pid, a: Action): Sys
  {
    if p !in s.kinds || p !in s.places then s
    else
      match (a, s.places[p])
      case (CreateExclusive, Idle) =>
        if s.kinds[p] == Rooted then s
        else if s.sidecar.None? then Created(s, p, true)
        else Go(s, p, MustOpen)
      case (OpenExisting, MustOpen) =>
        if s.sidecar.None? then Go(s, p, Idle) else Go(s, p, Opened(s.sidecar.value, false))
      case (OpenOrCreate, Idle) =>
        if s.kinds[p] == Plain then s
        else if s.sidecar.None? then Created(s, p, false)
        else Go(s, p, Opened(s.sidecar.value, false))
      case (Flock, Opened(i, created)) =>
        if i in s.locks then Go(s, p, Idle) else Go(s, p, Holding(i, created)).(locks := s.locks[i := p])
      case (Unlock, Holding(i, created)) => Go(s, p, Unlocked(created)).(locks := s.locks - {i})
      case (Close, Unlocked(created)) => if s.kinds[p] == Plain && created then Go(s, p, Closed) else Go(s, p, Idle)
      case (Remove, Closed) => Go(s, p, Idle).(sidecar := None)
      case (GiveUp, MustOpen) => Go(s, p, Idle)
      case (GiveUp, Opened(_, _)) => Go(s, p, Idle)
      case (Die, Holding(i, _)) => Go(s, p, Idle).(locks := s.locks - {i})
      case (Die, _) => Go(s, p, Idle)
      case _ => s
  }

  function Run(s: Sys, steps: seq<(Pid, Action)>): Sys
    decreases |steps|
  {
    if steps == [] then s else Run(Next(s, steps[0].0, steps[0].1), steps[1..])
  }

  /** No caller has begun; the lock file may be left over from before. */
  function Start(kinds: map<Pid, Kind>, sidecar: Option<Inode>): Sys
  {
    Sys(kinds, map p | p in kinds :: Idle, sidecar, map[], if sidecar.Some? then sidecar.value + 1 else 0)
  }

  ghost predicate MutualExclusion(s: Sys)
  {
    forall p, q | p in s.places && q in s.places && s.places[p].Holding? && s.places[q].Holding? :: p == q
  }

  // ----- with a lasting lock file -----

  /** The caller's descriptor is on `i`, and it will not remove the name. */
  predicate On(place: Place, i: Inode)
  {
    match place
    case Idle => true
    case MustOpen => true
    case Opened(j, created) => j == i && !created
    case Holding(j, created) => j == i && !created
    case Unlocked(created) => !created
    case Closed => false
  }

  /** The name refers to `i` for good, and whoever holds the lock holds it on `i`. */
  ghost predicate Stable(s: Sys, i: Inode)
  {
    s.sidecar == Some(i) &&
    (forall p | p in s.places :: On(s.places[p], i)) &&
    (forall j | j in s.locks :: j == i) &&
    (forall p | p in s.places && s.places[p].Holding? :: i in s.locks && s.locks[i] == p)
  }

  lemma StableStep(s: Sys, i: Inode, p: Pid, a: Action)
    requires Stable(s, i)
    ensures Stable(Next(s, p, a), i)
  {
  }

  /** From any state where the lock file exists and no caller has begun, every interleaving of
      any callers has at most one holder and keeps the lock file. */
  lemma {:induction false} StableRun(s: Sys, i: Inode, steps: seq<(Pid, Action)>)
    requires Stable(s, i)
    ensures Stable(Run(s, steps), i) && MutualExclusion(Run(s, steps)) && Run(s, steps).sidecar == Some(i)
    decreases |steps|
  {
    hide Next;
    if steps != [] {
      StableStep(s, i, steps[0].0, steps[0].1);
      StableRun(Next(s, steps[0].0, steps[0].1), i, steps[1..]);
    }
  }

  // ----- from an empty directory -----

  ghost predicate AllRooted(s: Sys)
  {
    forall p | p in s.kinds :: s.kinds[p] == Rooted
  }

  ghost predicate Untouched(s: Sys)
  {
    s.sidecar == None && s.locks == map[] && forall p | p in s.places :: s.places[p] == Idle
  }

  lemma RootedStep(s: Sys, p: Pid, a: Action) returns (i: Inode)
    requires AllRooted(s) && Untouched(s)
    ensures AllRooted(Next(s, p, a)) && (Untouched(Next(s, p, a)) || Stable(Next(s, p, a), i))
  {
    i := s.next;
  }

  lemma {:induction false} RootedReach(s: Sys, steps: seq<(Pid, Action)>) returns (i: Inode)
    requires AllRooted(s) && Untouched(s)
    ensures Untouched(Run(s, steps)) || Stable(Run(s, steps), i)
    decreases |steps|
  {
    hide Next, Untouched, AllRooted, Stable;
    i := 0;
    if steps != [] {
      i := RootedStep(s, steps[0].0, steps[0].1);
      var s' := Next(s, steps[0].0, steps[0].1);
      if Untouched(s') {
        i := RootedReach(s', steps[1..]);
      } else {
        StableRun(s', i, steps[1..]);
      }
    }
  }

  /** Callers that never remove the lock file exclude each other from an empty directory too, and
      once there is a lock file it stays, whatever steps `later` follow. */
  lemma RootedRun(s: Sys, steps: seq<(Pid, Action)>, later: seq<(Pid, Action)>)
    requires AllRooted(s) && Untouched(s)
    ensures MutualExclusion(Run(s, steps))
    ensures Run(s, steps).sidecar.Some? ==> Run(s, steps + later).sidecar == Run(s, steps).sidecar
  {
    hide Next, Run, MutualExclusion, AllRooted;
    var i := RootedReach(s, steps);
    RunConcat(s, steps, later);
    if Untouched(Run(s, steps)) {
      NoHolder(Run(s, steps));
    } else {
      StableRun(Run(s, steps), i, later);
      StableRun(Run(s, steps), i, []);
      RunEmpty(Run(s, steps));
    }
  }

  lemma RunEmpty(s: Sys)
    ensures Run(s, []) == s
  {
  }

  lemma NoHolder(s: Sys)
    requires Untouched(s)
    ensures MutualExclusion(s)
  {
  }

  /** How a caller of either kind opens the existing lock file. */
  function OpenSteps(kind: Kind, q: Pid): seq<(Pid, Action)>
  {
    if kind == Rooted then [(q, OpenOrCreate)] else [(q, CreateExclusive), (q, OpenExisting)]
  }

  lemma {:induction false} RunConcat(s: Sys, a: seq<(Pid, Action)>, b: seq<(Pid, Action)>)
    ensures Run(s, a + b) == Run(Run(s, a), b)
    decreases |a|
  {
    hide Next;
    if a == [] {
      assert a + b == b;
    } else {
      assert (a + b)[0] == a[0] && (a + b)[1..] == a[1..] + b;
      RunConcat(Next(s, a[0].0, a[0].1), a[1..], b);
    }
  }

  /** One `lockPath` caller `p` is enough to break exclusion from an empty directory: `q` opens
      the file `p` made, `p` unlocks, `q` locks, `p` removes the name, makes a new file and locks that. */
  lemma RemovalBreaks(kinds: map<Pid, Kind>, p: Pid, q: Pid) returns (steps: seq<(Pid, Action)>)
    requires p in kinds && q in kinds && p != q && kinds[p] == Plain
    ensures !MutualExclusion(Run(Start(kinds, None), steps))
  {
    var s0 := Start(kinds, None);
    var s1 := Next(s0, p, CreateExclusive);
    assert s1.places[p] == Opened(0, true) && s1.places[q] == Idle && s1.sidecar == Some(0);
    var open := OpenSteps(kinds[q], q);
    var s2 := Run(s1, open);
    OpensExisting(s1, q, 0);
    var tail := [(p, Flock), (p, Unlock), (p, Close), (q, Flock), (p, Remove), (p, CreateExclusive), (p, Flock)];
    BreakTail(s2, p, q);
    steps := [(p, CreateExclusive)] + (open + tail);
    assert steps[0] == (p, CreateExclusive) && steps[1..] == open + tail;
    RunConcat(s1, open, tail);
  }

  lemma OpensExisting(s: Sys, q: Pid, i: Inode)
    requires q in s.kinds && q in s.places && s.places[q] == Idle && s.sidecar == Some(i)
    ensures Run(s, OpenSteps(s.kinds[q], q)) == Go(s, q, Opened(i, false))
  {
    if s.kinds[q] == Rooted {
      Run1(s, (q, OpenOrCreate), []);
    } else {
      Run1(s, (q, CreateExclusive), [(q, OpenExisting)]);
      var s1 := Next(s, q, CreateExclusive);
      Run1(s1, (q, OpenExisting), []);
      assert s1.places[q := Opened(i, false)] == s.places[q := Opened(i, false)];
    }
  }

  lemma Run1(s: Sys, step: (Pid, Action), rest: seq<(Pid, Action)>)
    ensures Run(s, [step] + rest) == Run(Next(s, step.0, step.1), rest)
    ensures rest == [] ==> Run(s, [step]) == Next(s, step.0, step.1)
  {
    hide Next;
    assert ([step] + rest)[1..] == rest;
    assert [step] + [] == [step];
  }

  lemma BreakTail(s: Sys, p: Pid, q: Pid)
    requires p != q && p in s.kinds && q in s.kinds && p in s.places && q in s.places
    requires s.kinds[p] == Plain && s.places[p] == Opened(0, true) && s.places[q] == Opened(0, false)
    requires s.sidecar == Some(0) && s.locks == map[] && s.next == 1
    ensures !MutualExclusion(Run(s,
            [(p, Flock), (p, Unlock), (p, Close), (q, Flock), (p, Remove), (p, CreateExclusive), (p, Flock)]))
  {
    hide Next;
    Unroll(s, p, q);
    var d := Next(Next(Next(Next(s, p, Flock), p, Unlock), p, Close), q, Flock);
    HandOver(s, p, q);
    TakeAgain(d, p, q);
  }

  /** `p` locks and unlocks; `q`, which had the file open, locks it. */
  lemma HandOver(s: Sys, p: Pid, q: Pid)
    requires p != q && p in s.kinds && q in s.kinds && p in s.places && q in s.places
    requires s.kinds[p] == Plain && s.places[p] == Opened(0, true) && s.places[q] == Opened(0, false)
    requires s.sidecar == Some(0) && s.locks == map[] && s.next == 1
    ensures var d := Next(Next(Next(Next(s, p, Flock), p, Unlock), p, Close), q, Flock);
            d.kinds == s.kinds && d.places.Keys == s.places.Keys && d.next == 1 && d.locks == map[0 := q] &&
            d.places[p] == Closed && d.places[q] == Holding(0, false)
  {
    var b := Next(Next(s, p, Flock), p, Unlock);
    assert b.locks == map[] && b.places[p] == Unlocked(true) && b.places[q] == Opened(0, false);
    var c := Next(b, p, Close);
    assert c.locks == map[] && c.places[p] == Closed && c.places[q] == Opened(0, false);
  }

  /** `p` removes the name and locks a new file while `q` holds the old one. */
  lemma TakeAgain(d: Sys, p: Pid, q: Pid)
    requires p != q && p in d.kinds && q in d.kinds && p in d.places && q in d.places
    requires d.kinds[p] == Plain && d.next == 1 && d.locks == map[0 := q]
    requires d.places[p] == Closed && d.places[q] == Holding(0, false)
    ensures !MutualExclusion(Next(Next(Next(d, p, Remove), p, CreateExclusive), p, Flock))
  {
    var f := Next(Next(d, p, Remove), p, CreateExclusive);
    assert f.places[p] == Opened(1, true) && f.places[q] == Holding(0, false) && f.locks == map[0 := q];
    var g := Next(f, p, Flock);
    assert g.places[p] == Holding(1, true) && g.places[q] == Holding(0, false);
  }

  lemma Unroll(s: Sys, p: Pid, q: Pid)
    ensures Run(s, [(p, Flock), (p, Unlock), (p, Close), (q, Flock), (p, Remove), (p, CreateExclusive), (p, Flock)]) ==
            Next(Next(Next(Next(Next(Next(Next(s, p, Flock), p, Unlock), p, Close), q, Flock), p, Remove), p,
              CreateExclusive), p, Flock)
  {
    hide Next;
    var a := Next(s, p, Flock);
    var b := Next(a, p, Unlock);
    var c := Next(b, p, Close);
    var d := Next(c, q, Flock);
    var e := Next(d, p, Remove);
    var f := Next(e, p, CreateExclusive);
    Run1(f, (p, Flock), []);
    Run1(e, (p, CreateExclusive), [(p, Flock)]);
    Run1(d, (p, Remove), [(p, CreateExclusive), (p, Flock)]);
    Run1(c, (q, Flock), [(p, Remove), (p, CreateExclusive), (p, Flock)]);
    Run1(b, (p, Close), [(q, Flock), (p, Remove), (p, CreateExclusive), (p, Flock)]);
    Run1(a, (p, Unlock), [(p, Close), (q, Flock), (p, Remove), (p, CreateExclusive), (p, Flock)]);
    Run1(s, (p, Flock), [(p, Unlock), (p, Close), (q, Flock), (p, Remove), (p, CreateExclusive), (p, Flock)]);
  }

  /** Exactly when the lock is safe: among two or more callers, at most one can hold it in every
      interleaving if and only if the lock file already exists or no caller uses `lockPath`. */
  lemma SafeExactlyWhen(kinds: map<Pid, Kind>, sidecar: Option<Inode>, a: Pid, b: Pid)
    requires a in kinds && b in kinds && a != b
    ensures (forall steps :: MutualExclusion(Run(Start(kinds, sidecar), steps))) <==>
            (sidecar.Some? || forall p | p in kinds :: kinds[p] == Rooted)
  {
    hide Run, MutualExclusion;
    var s := Start(kinds, sidecar);
    if sidecar.Some? {
      forall steps ensures MutualExclusion(Run(s, steps)) { StableRun(s, sidecar.value, steps); }
    } else if forall p | p in kinds :: kinds[p] == Rooted {
      forall steps ensures MutualExclusion(Run(s, steps)) { RootedRun(s, steps, []); }
    } else {
      var p :| p in kinds && kinds[p] != Rooted;
      var steps := RemovalBreaks(kinds, p, if p == a then b else a);
    }
  }
}
