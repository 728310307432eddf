/**
 What each step of a thread answers: which state, priority, error and timer its thread has afterwards and in which list
 at which place, and that every other thread keeps its fields and its order in every list.
 */
module ThreadCalls {
  import opened Common
  import opened Waiting
  import opened Threads

  /** All threads but `t` have their fields, and their order in every list. */
  ghost predicate Frame(s: State, s': State, t: Tid) {
    && (forall u: Tid :: u != t ==> Fields(s, s', u))
    && forall id {:trigger List(s, id)} {:trigger List(s', id)} :: Remove(List(s', id), t) == Remove(List(s, id), t)
  }

  predicate Fields(s: State, s': State, u: Tid) {
    && (u in s'.threads <==> u in s.threads)
    && (u in s.threads ==> s'.threads[u] == s.threads[u])
    && s'.gap[u] == s.gap[u]
  }

  /** Thread `t` has these fields and is in no list. */
  ghost predicate Nowhere(s: State, t: Tid, th: Thread) {
    t in s.threads && s.threads[t] == th && Loose(s, t)
  }

  /** Thread `t` has these fields, is ready, and is last in the queue of its priority. */
  ghost predicate ReadyLast(s: State, t: Tid, th: Thread) {
    && t in s.threads && s.threads[t] == th && th.stat.Ready?
    && OnlyIn(s, t, ReadyQueue(th.prio)) && LastIn(List(s, ReadyQueue(th.prio)), t)
  }

  predicate LastIn(q: seq<Tid>, t: Tid) {
    q != [] && q[|q| - 1] == t
  }

  // ---- Taking one thread out of a list ----

  lemma {:induction false} RemoveNone(q: seq<Tid>, t: Tid)
    requires t !in q
    ensures Remove(q, t) == q
  {
    if q != [] { RemoveNone(q[1..], t); }
  }

  lemma RemoveLast(q: seq<Tid>, t: Tid)
    requires t !in q
    ensures Remove(q + [t], t) == q
  {
    hide Remove;
    RemoveBetween(q, t, []);
    assert [t] + [] == [t] && q + [] == q;
  }

  lemma RemoveTwice(q: seq<Tid>, t: Tid)
    requires NoDup(q)
    ensures Remove(Remove(q, t), t) == Remove(q, t)
  {
    hide Remove;
    RemoveMembers(q, t);
    RemoveNone(Remove(q, t), t);
  }

  // ---- The moves ----

  lemma FrameTwice(s: State, s1: State, s2: State, t: Tid)
    requires Frame(s, s1, t) && Frame(s1, s2, t)
    ensures Frame(s, s2, t)
  {
    hide List, Remove;
    forall u: Tid | u != t ensures Fields(s, s2, u) {
      assert Fields(s, s1, u) && Fields(s1, s2, u);
    }
  }

  /** Taken off its list, with its own fields and its being resumed changed. */
  lemma Detaches(s: State, s': State, t: Tid, th: Thread)
    requires Clean(s) && s'.lists == Unlink(s, t).lists && s'.threads == s.threads[t := th]
    requires forall u :: u != t ==> s'.gap[u] == s.gap[u]
    ensures Frame(s, s', t) && Clean(s') && Nowhere(s', t, th)
  {
    hide Clean, Loose, NoDup, Remove;
    Unlinked(s, t);
    forall id ensures Remove(List(s', id), t) == Remove(List(s, id), t) {
      CleanAt(s, id);
      RemoveTwice(List(s, id), t);
    }
    SameListsLoose(Unlink(s, t), s', t);
  }

  lemma CleanAt(s: State, id: ListId)
    requires Clean(s)
    ensures NoDup(List(s, id))
  {
  }

  lemma SameListsLoose(s: State, s': State, t: Tid)
    requires s'.lists == s.lists
    ensures Loose(s, t) ==> Loose(s', t)
    ensures Clean(s) ==> Clean(s')
  {
    forall id ensures List(s', id) == List(s, id) {
    }
    hide List, NoDup;
  }

  lemma ListsKept(s: State, s': State, t: Tid, th: Thread)
    requires s'.lists == s.lists && s'.threads == s.threads[t := th] && forall u :: u != t ==> s'.gap[u] == s.gap[u]
    ensures Frame(s, s', t)
    ensures forall id :: List(s', id) == List(s, id)
  {
    hide Remove;
  }

  /** A thread in no list inserted into its ready queue. */
  lemma Inserts(s: State, t: Tid)
    requires Clean(s) && Loose(s, t) && t in s.threads
    ensures Frame(s, Insert(s, t), t) && ReadyLast(Insert(s, t), t, s.threads[t].(stat := Ready))
  {
    hide Clean, NoDup, Remove;
    var s', id := Insert(s, t), ReadyQueue(s.threads[t].prio);
    Inserted(s, t);
    RemoveLast(List(s, id), t);
    RemoveNone(List(s, id), t);
  }

  lemma InsertsAfter(s: State, s1: State, t: Tid)
    requires Frame(s, s1, t) && Clean(s1) && t in s1.threads && Nowhere(s1, t, s1.threads[t])
    ensures Frame(s, Insert(s1, t), t) && ReadyLast(Insert(s1, t), t, s1.threads[t].(stat := Ready))
    ensures Insert(s1, t).gap == s1.gap
  {
    hide Frame, Clean, ReadyLast, Loose, List;
    Inserts(s1, t);
    FrameTwice(s, s1, Insert(s1, t), t);
  }

  // ---- What the steps answer ----

  lemma StartupAnswers(s: State, t: Tid)
    requires Inv(s) && Possible(s, Startup(t))
    ensures var s' := Next(s, Startup(t)); var th := s.threads[t];
            && Frame(s, s', t) && s'.gap[t] == s.gap[t] + 1
            && Nowhere(s', t, th.(stat := Suspend, prio := th.initPrio, timer := false))
  {
    hide Inv, Clean, Frame, Nowhere, Unlink;
    InvParts(s, t);
    var th := s.threads[t];
    UnlinkSet(s, t, th.(stat := Suspend, prio := th.initPrio));
    UnlinkFields(s, t);
    Detaches(s, Next(s, Startup(t)), t, th.(stat := Suspend, prio := th.initPrio, timer := false));
  }

  /** Refused exactly for a thread that is not suspended; else it is taken off its list and its timer stopped. */
  lemma ResumeTakeAnswers(s: State, t: Tid)
    requires Inv(s) && t in s.threads
    ensures var s' := Next(s, ResumeTake(t)); var th := s.threads[t];
            if !th.stat.Suspend? then s' == s
            else Frame(s, s', t) && s'.gap[t] == s.gap[t] + 1 && Nowhere(s', t, th.(timer := false))
  {
    hide Inv, Clean, Frame, Nowhere, Unlink;
    InvParts(s, t);
    UnlinkFields(s, t);
    Detaches(s, Take(s, t), t, s.threads[t].(timer := false));
  }

  lemma ResumePutAnswers(s: State, t: Tid)
    requires Inv(s) && t in s.threads && s.gap[t] > 0
    ensures var s' := Next(s, ResumePut(t));
            Frame(s, s', t) && s'.gap[t] == s.gap[t] - 1 && ReadyLast(s', t, s.threads[t].(stat := Ready))
  {
    hide Inv, Clean, Frame, ReadyLast, Insert, Loose, ThreadOk;
    InvParts(s, t);
    var s1 := s.(gap := s.gap - multiset{t});
    assert s.threads[t := s.threads[t]] == s.threads;
    ListsKept(s, s1, t, s.threads[t]);
    SameListsLoose(s, s1, t);
    InsertsAfter(s, s1, t);
  }

  /** A complete resume: refused for a thread that is not suspended; else ready, with its timer stopped. */
  lemma ResumeAnswers(s: State, t: Tid)
    requires Inv(s) && Legal(s, Resume(t))
    ensures var s' := Next(s, Resume(t)); var th := s.threads[t];
            if !th.stat.Suspend? then s' == s
            else Frame(s, s', t) && s'.gap[t] == s.gap[t] && ReadyLast(s', t, th.(stat := Ready, timer := false))
  {
    hide Inv, Clean, Frame, ReadyLast, Nowhere, Put, Take;
    if s.threads[t].stat.Suspend? {
      ResumeTakeAnswers(s, t);
      TakeTaken(s, t);
      StepKeepsInv(s, ResumeTake(t));
      ResumePutAnswers(Take(s, t), t);
      FrameTwice(s, Take(s, t), Put(Take(s, t), t), t);
    }
  }

  lemma TakeTaken(s: State, t: Tid)
    requires t in s.threads
    ensures var s1 := Take(s, t);
            t in s1.threads && s1.threads[t] == s.threads[t].(timer := false) && s1.gap[t] == s.gap[t] + 1
  {
  }

  /** Refused exactly for a thread that is not ready; else it is in no list, with its timer stopped. */
  lemma SuspendAnswers(s: State, t: Tid)
    requires Inv(s) && t in s.threads
    ensures var s' := Next(s, SuspendSelf(t)); var th := s.threads[t];
            if !th.stat.Ready? then s' == s
            else Frame(s, s', t) && s'.gap[t] == s.gap[t] && Nowhere(s', t, th.(stat := Suspend, timer := false))
  {
    hide Inv, Clean, Frame, Nowhere, Unlink;
    InvParts(s, t);
    UnlinkFields(s, t);
    Detaches(s, Suspended(s, t), t, s.threads[t].(stat := Suspend, timer := false));
  }

  lemma SleepAnswers(s: State, t: Tid)
    requires Inv(s) && Possible(s, Sleep(t))
    ensures var s' := Next(s, Sleep(t)); var th := s.threads[t];
            Frame(s, s', t) && s'.gap[t] == s.gap[t] && Nowhere(s', t, th.(stat := Suspend, timer := true))
  {
    hide Inv, Clean, Frame, Nowhere, Unlink;
    InvParts(s, t);
    UnlinkFields(s, t);
    Detaches(s, Next(s, Sleep(t)), t, s.threads[t].(stat := Suspend, timer := true));
  }

  /** How a thread joins the wait list of an object: at the end, or before the first less urgent waiter. */
  ghost predicate Joined(q: seq<Tid>, t: Tid, flag: Flag, prio: map<Tid, nat>, r: seq<Tid>)
    requires t in prio && Known(q, prio)
  {
    if flag.Fifo? then r == q + [t] else exists i: nat :: PlacedAt(q, t, prio, r, i)
  }

  lemma SuspendOnAnswers(s: State, t: Tid, obj: nat, flag: Flag, timed: bool)
    requires Inv(s) && Possible(s, SuspendOn(t, obj, flag, timed))
    ensures var s' := Next(s, SuspendOn(t, obj, flag, timed)); var th := s.threads[t];
            var q := List(s, WaitList(obj)); var prio := Priorities(s);
            && Frame(s, s', t) && s'.gap[t] == s.gap[t]
            && t in s'.threads && s'.threads[t] == th.(stat := Suspend, timer := timed)
            && OnlyIn(s', t, WaitList(obj))
            && Known(q, prio) && Joined(q, t, flag, prio, List(s', WaitList(obj)))
  {
    hide Inv, Clean, Frame, Unlink, NoDup, Remove, Enqueue, Known, PlacedAt, Loose;
    InvParts(s, t);
    var th := s.threads[t];
    var s1, id := Suspended(s, t), WaitList(obj);
    UnlinkFields(s, t);
    Detaches(s, s1, t, th.(stat := Suspend, timer := false));
    WaitersKnown(s, s1, t, id);
    NotWaiting(s, t, id);
    var q := List(s1, id);
    var r := Enqueue(q, t, flag, Priorities(s1));
    assert Priorities(s1) == Priorities(s);
    EnqueueJoins(q, t, flag, Priorities(s1));
    LooseClean(s1, t, id);
    EnqueueFits(q, t, flag, Priorities(s1));
    EnqueueRemoved(q, t, flag, Priorities(s1));
    RemoveNone(q, t);
    Linked(s1, t, id, r);
    LinkFrames(s1, t, id, r, th.(stat := Suspend, timer := timed));
    FrameTwice(s, s1, Next(s, SuspendOn(t, obj, flag, timed)), t);
  }

  lemma EnqueueJoins(q: seq<Tid>, t: Tid, flag: Flag, prio: map<Tid, nat>)
    requires t in prio && Known(q, prio)
    ensures Joined(q, t, flag, prio, Enqueue(q, t, flag, prio))
  {
    if flag.Fifo? {
      EnqueueFifo(q, t, prio);
    } else {
      var i := EnqueuePlace(q, t, prio);
    }
  }

  /** A ready thread is in no wait list, so taking it off its list leaves these as they were. */
  lemma NotWaiting(s: State, t: Tid, id: ListId)
    requires Inv(s) && t in s.threads && s.threads[t].stat.Ready? && id.WaitList?
    ensures List(Unlink(s, t), id) == List(s, id)
  {
    hide Clean;
    assert ThreadOk(s, t);
    RemoveNone(List(s, id), t);
  }

  lemma LinkFrames(s: State, t: Tid, id: ListId, q: seq<Tid>, th: Thread)
    requires Remove(q, t) == Remove(List(s, id), t) && OnlyIn(Link(s, id, q), t, id)
    ensures var s' := Set(Link(s, id, q), t, th);
            Frame(s, s', t) && OnlyIn(s', t, id) && List(s', id) == q && s'.gap == s.gap && s'.threads[t] == th
  {
    hide Remove;
    var s1, s' := Link(s, id, q), Set(Link(s, id, q), t, th);
    forall a ensures List(s', a) == List(s1, a) && List(s1, a) == if a == id then q else List(s, a) {
    }
  }

  /** The timeout of a waiter or sleeper: it is ready again, with the error. */
  lemma TimeoutAnswers(s: State, t: Tid)
    requires Inv(s) && Possible(s, Timeout(t))
    ensures var s' := Next(s, Timeout(t)); var th := s.threads[t];
            && Frame(s, s', t) && s'.gap[t] == s.gap[t]
            && ReadyLast(s', t, th.(stat := Ready, timer := false, error := ETIMEOUT))
  {
    hide Inv, Clean, Frame, Nowhere, Unlink, Insert, ReadyLast;
    InvParts(s, t);
    var th := s.threads[t].(timer := false, error := ETIMEOUT);
    var s1 := Unlink(Set(s, t, th), t);
    UnlinkSet(s, t, th);
    UnlinkFields(s, t);
    Detaches(s, s1, t, th);
    InsertsAfter(s, s1, t);
  }

  /** A new priority: a ready thread goes behind all others of it, any other stays where it is. */
  lemma PriorityAnswers(s: State, t: Tid, p: nat)
    requires Inv(s) && t in s.threads
    ensures var s' := Next(s, ChangePriority(t, p)); var th := s.threads[t].(prio := p);
            && Frame(s, s', t) && s'.gap[t] == s.gap[t] && t in s'.threads && s'.threads[t] == th
            && if th.stat.Ready? then ReadyLast(s', t, th) else s'.lists == s.lists
  {
    hide Inv, Clean, Frame, Nowhere, Unlink, Insert, ReadyLast;
    InvParts(s, t);
    var th := s.threads[t].(prio := p);
    UnlinkFields(s, t);
    if th.stat.Ready? {
      var s1 := Set(Unlink(s, t), t, th);
      Detaches(s, s1, t, th);
      InsertsAfter(s, s1, t);
      ReadyFields(Insert(s1, t), t, th);
    } else {
      ListsKept(s, Set(s, t, th), t, th);
    }
  }

  lemma ReadyFields(s: State, t: Tid, th: Thread)
    requires ReadyLast(s, t, th)
    ensures t in s.threads && s.threads[t] == th
  {
  }

  /** A ready thread goes behind all others of its priority; the yield of any other changes nothing. */
  lemma YieldAnswers(s: State, t: Tid)
    requires Inv(s) && t in s.threads
    ensures var s' := Next(s, Yield(t)); var th := s.threads[t];
            if th.stat.Ready? then Frame(s, s', t) && s'.gap[t] == s.gap[t] && ReadyLast(s', t, th) else s' == s
  {
    hide Inv, Clean, Frame, Nowhere, Unlink, Insert, Loose;
    InvParts(s, t);
    var th := s.threads[t];
    UnlinkFields(s, t);
    if th.stat.Ready? {
      if |List(s, ReadyQueue(th.prio))| >= 2 {
        assert s.threads[t := th] == s.threads;
        Detaches(s, Unlink(s, t), t, th);
        InsertsAfter(s, Unlink(s, t), t);
      } else {
        AloneLast(s, t);
      }
    }
  }

  lemma AloneLast(s: State, t: Tid)
    requires Inv(s) && t in s.threads && s.threads[t].stat.Ready? && |List(s, ReadyQueue(s.threads[t].prio))| < 2
    ensures Frame(s, s, t) && ReadyLast(s, t, s.threads[t])
  {
    hide Clean;
    assert ThreadOk(s, t);
  }

  /** An exiting thread is closed, its timer stopped; it is the first of the defunct threads, or in no list. */
  lemma ExitAnswers(s: State, t: Tid, keep: bool)
    requires Inv(s) && Possible(s, Exit(t, keep))
    ensures var s' := Next(s, Exit(t, keep)); var th := s.threads[t].(stat := Close, timer := false);
            && Frame(s, s', t) && s'.gap[t] == s.gap[t] && t in s'.threads && s'.threads[t] == th
            && if keep then OnlyIn(s', t, Defunct) && List(s', Defunct) == [t] + List(s, Defunct) else Loose(s', t)
  {
    hide Inv, Clean, Frame, Unlink, NoDup, Remove, Loose;
    InvParts(s, t);
    var th := s.threads[t].(stat := Close, timer := false);
    var s1 := Set(Unlink(s, t), t, th);
    UnlinkFields(s, t);
    Detaches(s, s1, t, th);
    if keep {
      LooseClean(s1, t, Defunct);
      NotDefunct(s, t);
      PutFirst(List(s1, Defunct), t);
      NewHead(List(s1, Defunct), t);
      RemoveNone(List(s1, Defunct), t);
      Linked(s1, t, Defunct, [t] + List(s1, Defunct));
      LinkFrames(s1, t, Defunct, [t] + List(s1, Defunct), th);
      SetAgain(Link(s1, Defunct, [t] + List(s1, Defunct)), t);
      FrameTwice(s, s1, Next(s, Exit(t, keep)), t);
    }
  }

  lemma SetAgain(s: State, t: Tid)
    requires t in s.threads
    ensures Set(s, t, s.threads[t]) == s
  {
    assert s.threads[t := s.threads[t]] == s.threads;
  }

  lemma NotDefunct(s: State, t: Tid)
    requires Inv(s) && t in s.threads && s.threads[t].stat.Ready?
    ensures List(Unlink(s, t), Defunct) == List(s, Defunct)
  {
    hide Clean;
    assert ThreadOk(s, t);
    RemoveNone(List(s, Defunct), t);
  }
}
