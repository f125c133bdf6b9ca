/**
 Calls on a closed queue return. In every infinite behaviour that is weakly fair to each
 thread, whoever is inside a call once the queue is closed comes out of it: no call sleeps
 for ever, whatever the other threads do and however often they call again.
 */
module QueueLiveness {
  import opened Common
  import opened QueueProtocol

  /** The steps a thread takes by itself: its mutex sections and its notifications. */
  predicate Own<T>(e: Event<T>, t: Tid) {
    e.t == t && (e.Lock? || e.NotifyOne? || e.NotifyAll?)
  }

  predicate CanMove<T>(p: Pc<T>) { !p.Idle? && !p.Asleep? }

  lemma CanMoveIsEnabled<T>(s: State<T>, t: Tid)
    ensures CanMove(PcOf(s, t)) <==> exists e: Event<T> :: Own(e, t) && Enabled(s, e)
  {
    if CanMove(PcOf(s, t)) {
      var e := SomeMove(s, t);
      assert Own(e, t) && Enabled(s, e);
    }
  }

  lemma SomeMove<T>(s: State<T>, t: Tid) returns (e: Event<T>)
    requires CanMove(PcOf(s, t))
    ensures Own(e, t) && Enabled(s, e)
  {
    var p := PcOf(s, t);
    if AtMutex(p) {
      e := Lock(t);
    } else if p.OwesNotEmpty? {
      e := NotifyOne(t, if w :| w in s.pcs && SleepsOnNotEmpty(s.pcs[w]) then Some(w) else None);
    } else if p.OwesNotFull? {
      e := NotifyOne(t, if w :| w in s.pcs && SleepsOnNotFull(s.pcs[w]) then Some(w) else None);
    } else {
      e := NotifyAll(t);
    }
  }

  // ----- infinite behaviours -----

  /** At any moment something happens, or nothing: a behaviour may come to rest. */
  ghost predicate StepOf<T>(st: nat -> State<T>, ev: nat -> Option<Event<T>>, n: nat) {
    match ev(n)
    case None => st(n + 1) == st(n)
    case Some(e) => Enabled(st(n), e) && st(n + 1) == Apply(st(n), e)
  }

  ghost predicate Behaviour<T>(st: nat -> State<T>, ev: nat -> Option<Event<T>>) {
    Init(st(0)) && forall n: nat :: StepOf(st, ev, n)
  }

  ghost predicate Served<T>(st: nat -> State<T>, ev: nat -> Option<Event<T>>, t: Tid, m: nat) {
    (ev(m).Some? && Own(ev(m).value, t)) || !CanMove(PcOf(st(m), t))
  }

  ghost predicate ServedFrom<T>(st: nat -> State<T>, ev: nat -> Option<Event<T>>, t: Tid, n: nat) {
    exists m: nat :: n <= m && Served(st, ev, t, m)
  }

  /** Weak fairness: a thread that stays able to take a step of its own does take one. */
  ghost predicate Fair<T>(st: nat -> State<T>, ev: nat -> Option<Event<T>>) {
    forall t: Tid, n: nat :: ServedFrom(st, ev, t, n)
  }

  ghost predicate NoSleepingCloser<T>(s: State<T>) {
    forall t :: t in s.pcs && s.pcs[t].Asleep? ==> !s.pcs[t].op.Close?
  }

  lemma {:induction false} BehaviourKeepsInv<T>(st: nat -> State<T>, ev: nat -> Option<Event<T>>, n: nat)
    requires Behaviour(st, ev)
    ensures Inv(st(n)) && NoSleepingCloser(st(n))
  {
    if n == 0 {
      InitEstablishesInv(st(0));
    } else {
      BehaviourKeepsInv(st, ev, n - 1);
      assert StepOf(st, ev, n - 1);
      if ev(n - 1).Some? {
        StepKeepsInv(st(n - 1), ev(n - 1).value);
        CloserKeepsAwake(st(n - 1), ev(n - 1).value);
      }
    }
  }

  lemma CloserKeepsAwake<T>(s: State<T>, e: Event<T>)
    requires NoSleepingCloser(s) && Enabled(s, e)
    ensures NoSleepingCloser(Apply(s, e))
  {
  }

  // ----- how far a call is from its return -----

  /** The steps of its own a thread still has to take. */
  function Stage<T>(p: Pc<T>): nat {
    match p
    case Idle => 0
    case OwesAll => 2
    case Calling(_) => 3
    case Asleep(_) => 3
    case Awake(_, _) => 3
    case _ => 1
  }

  /** If t sleeps, c is a closer who still owes the notify_all that wakes it. */
  predicate Owed<T>(s: State<T>, t: Tid, c: Tid) {
    var p, q := PcOf(s, t), PcOf(s, c);
    p.Asleep? ==>
      if p.op.Consumes() then q.OwesAll?
      else p.op.Produces() && (q.OwesAll? || q.OwesAllNotFull?)
  }

  /** The thread whose step brings t closer: t itself, or the closer while t sleeps. */
  function Mover<T>(s: State<T>, t: Tid, c: Tid): Tid {
    if PcOf(s, t).Asleep? then c else t
  }

  function Distance<T>(s: State<T>, t: Tid, c: Tid): nat {
    Stage(PcOf(s, t)) + if PcOf(s, t).Asleep? then Stage(PcOf(s, c)) else 0
  }

  lemma MoverCanMove<T>(s: State<T>, t: Tid, c: Tid)
    requires Owed(s, t, c) && !PcOf(s, t).Idle?
    ensures CanMove(PcOf(s, Mover(s, t, c))) && Distance(s, t, c) > 0
  {
  }

  /** On a closed queue no step takes a call further from its return, and every step of the
      mover takes it closer. */
  lemma StepsComeCloser<T>(s: State<T>, e: Event<T>, t: Tid, c: Tid)
    requires s.closed && Owed(s, t, c) && !PcOf(s, t).Idle? && Enabled(s, e)
    ensures var s' := Apply(s, e);
      && s'.closed && Owed(s', t, c) && Distance(s', t, c) <= Distance(s, t, c)
      && (Own(e, Mover(s, t, c)) ==> Distance(s', t, c) < Distance(s, t, c))
      && (Distance(s', t, c) == Distance(s, t, c) ==> Mover(s', t, c) == Mover(s, t, c))
  {
  }

  lemma SomeCloserOwes<T>(s: State<T>, t: Tid) returns (c: Tid)
    requires Inv(s) && NoSleepingCloser(s) && s.closed
    ensures Owed(s, t, c)
  {
    c := t;
    if PcOf(s, t).Asleep? {
      CountPositive(s.pcs, SleepsOnNotEmpty);
      CountPositive(s.pcs, SleepsOnNotFull);
      CountPositive(s.pcs, CloserOwesNotEmpty);
      CountPositive(s.pcs, CloserOwesNotFull);
      if PcOf(s, t).op.Consumes() {
        c :| c in s.pcs && CloserOwesNotEmpty(s.pcs[c]);
      } else {
        c :| c in s.pcs && CloserOwesNotFull(s.pcs[c]);
      }
    }
  }

  /** Until the distance drops, the mover stays the same. */
  lemma {:induction false} MoverUntilCloser<T>(st: nat -> State<T>, ev: nat -> Option<Event<T>>, n: nat, m: nat,
      t: Tid, c: Tid)
      returns (closer: bool, j: nat)
    requires Behaviour(st, ev) && n <= m
    requires st(n).closed && Owed(st(n), t, c) && !PcOf(st(n), t).Idle?
    ensures closer ==>
      n < j <= m && st(j).closed && Owed(st(j), t, c) && Distance(st(j), t, c) < Distance(st(n), t, c)
    ensures !closer ==>
      && st(m).closed && Owed(st(m), t, c) && !PcOf(st(m), t).Idle?
      && Mover(st(m), t, c) == Mover(st(n), t, c) && Distance(st(m), t, c) == Distance(st(n), t, c)
    decreases m - n
  {
    closer, j := false, n;
    if n < m {
      closer, j := MoverUntilCloser(st, ev, n, m - 1, t, c);
      if !closer {
        assert StepOf(st, ev, m - 1);
        if ev(m - 1).Some? {
          StepsComeCloser(st(m - 1), ev(m - 1).value, t, c);
        }
        MoverCanMove(st(n), t, c);
        if Distance(st(m), t, c) < Distance(st(n), t, c) {
          closer, j := true, m;
        }
      }
    }
  }

  lemma ComesCloser<T>(st: nat -> State<T>, ev: nat -> Option<Event<T>>, n: nat, t: Tid, c: Tid) returns (j: nat)
    requires Behaviour(st, ev) && Fair(st, ev)
    requires st(n).closed && Owed(st(n), t, c) && !PcOf(st(n), t).Idle?
    ensures n < j && st(j).closed && Owed(st(j), t, c) && Distance(st(j), t, c) < Distance(st(n), t, c)
  {
    var mover := Mover(st(n), t, c);
    assert ServedFrom(st, ev, mover, n);
    var m: nat :| n <= m && Served(st, ev, mover, m);
    var closer;
    closer, j := MoverUntilCloser(st, ev, n, m, t, c);
    if !closer {
      MoverCanMove(st(m), t, c);
      assert StepOf(st, ev, m);
      StepsComeCloser(st(m), ev(m).value, t, c);
      j := m + 1;
    }
  }

  lemma {:induction false} ReturnsFrom<T>(st: nat -> State<T>, ev: nat -> Option<Event<T>>, n: nat, t: Tid, c: Tid)
      returns (m: nat)
    requires Behaviour(st, ev) && Fair(st, ev) && st(n).closed && Owed(st(n), t, c)
    ensures n <= m && PcOf(st(m), t).Idle?
    decreases Distance(st(n), t, c)
  {
    m := n;
    if !PcOf(st(n), t).Idle? {
      var j := ComesCloser(st, ev, n, t, c);
      m := ReturnsFrom(st, ev, j, t, c);
    }
  }

  /** Once the queue is closed, every thread inside a call returns from it. */
  lemma CallsReturnOnceClosed<T>(st: nat -> State<T>, ev: nat -> Option<Event<T>>, n: nat, t: Tid) returns (m: nat)
    requires Behaviour(st, ev) && Fair(st, ev) && st(n).closed
    ensures n <= m && PcOf(st(m), t).Idle?
  {
    BehaviourKeepsInv(st, ev, n);
    var c := SomeCloserOwes(st(n), t);
    m := ReturnsFrom(st, ev, n, t, c);
  }
}
