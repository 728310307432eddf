/**
 Thread states of thread.c as a step system: a thread's node is linked into at most one list, the one its state
 allows, and its timer runs only while it is suspended. Each region under the interrupt lock is one step; the
 unlocked gap inside `rt_thread_resume` is an interleaving point.
 */
module Threads {
  import opened Common
  import opened Waiting

  datatype Stat = Init | Ready | Suspend | Close

  datatype Thread = Thread(stat: Stat, prio: nat, initPrio: nat, timer: bool, error: Err)

  /** The lists a thread's node can be in: ready queues, wait lists of kernel objects, and the defunct threads. */
  datatype ListId = ReadyQueue(prio: nat) | WaitList(obj: nat) | Defunct

  /** `gap` holds the threads taken off their lists by `rt_thread_resume` and not yet put into a ready queue. */
  datatype State = State(threads: map<Tid, Thread>, lists: map<ListId, seq<Tid>>, gap: multiset<Tid>)

  function List(s: State, id: ListId): seq<Tid> {
    if id in s.lists then s.lists[id] else []
  }

  predicate Allowed(th: Thread, id: ListId) {
    match th.stat
    case Init => false
    case Ready => id == ReadyQueue(th.prio)
    case Suspend => id.WaitList?
    case Close => id == Defunct
  }

  /** A thread is only in lists its state allows, in at most one of them, and in its queue when it is ready. */
  ghost predicate Placed(s: State, t: Tid) {
    && t in s.threads
    && (forall id {:trigger List(s, id)} :: t in List(s, id) ==> Allowed(s.threads[t], id))
    && (forall a, b {:trigger List(s, a), List(s, b)} :: t in List(s, a) && t in List(s, b) ==> a == b)
    && (s.threads[t].stat.Ready? ==> t in List(s, ReadyQueue(s.threads[t].prio)))
  }

  /** The timer of a thread runs only while it is suspended, and not any more once it is being resumed. */
  predicate Timed(s: State, t: Tid)
    requires t in s.threads
  {
    && (s.threads[t].timer ==> s.threads[t].stat.Suspend? && s.gap[t] == 0)
    && s.gap[t] <= 1 && (s.gap[t] == 1 ==> s.threads[t].stat.Suspend?)
  }

  /** A thread being resumed is in no list. */
  ghost predicate Loose(s: State, t: Tid) {
    forall id {:trigger List(s, id)} :: t !in List(s, id)
  }

  ghost predicate ThreadOk(s: State, t: Tid) {
    Placed(s, t) && Timed(s, t) && (s.gap[t] == 1 ==> Loose(s, t))
  }

  /** No thread is twice in a list. */
  ghost predicate Clean(s: State) {
    forall id {:trigger List(s, id)} :: NoDup(List(s, id))
  }

  /** Threads the state does not know are in no list and not being resumed. */
  ghost predicate Closed(s: State) {
    forall t :: t !in s.threads ==> s.gap[t] == 0 && Loose(s, t)
  }

  ghost predicate Inv(s: State) {
    Clean(s) && Closed(s) && forall t :: t in s.threads ==> ThreadOk(s, t)
  }

  // ---- Steps ----

  datatype Step =
    | Startup(t: Tid)
    | ResumeTake(t: Tid)
    | ResumePut(t: Tid)
    | Resume(t: Tid)
    | SuspendSelf(t: Tid)
    | SuspendOn(t: Tid, obj: nat, flag: Flag, timed: bool)
    | Sleep(t: Tid)
    | Timeout(t: Tid)
    | ChangePriority(t: Tid, prio: nat)
    | Yield(t: Tid)
    | Exit(t: Tid, keep: bool)

  function Set(s: State, t: Tid, th: Thread): State {
    s.(threads := s.threads[t := th])
  }

  /** `rt_list_remove` of a thread's node, from whatever list it is in. */
  function Unlink(s: State, t: Tid): State {
    s.(lists := map id | id in s.lists :: Remove(s.lists[id], t))
  }

  function Link(s: State, id: ListId, q: seq<Tid>): State {
    s.(lists := s.lists[id := q])
  }

  /** `rt_schedule_insert_thread` */
  function Insert(s: State, t: Tid): State
    requires t in s.threads
  {
    var th := s.threads[t].(stat := Ready);
    Link(Set(s, t, th), ReadyQueue(th.prio), List(s, ReadyQueue(th.prio)) + [t])
  }

  function Take(s: State, t: Tid): State
    requires t in s.threads
  {
    Set(Unlink(s, t), t, s.threads[t].(timer := false)).(gap := s.gap + multiset{t})
  }

  function Put(s: State, t: Tid): State
    requires t in s.threads
  {
    Insert(s.(gap := s.gap - multiset{t}), t)
  }

  /** `rt_thread_suspend` of a ready thread. */
  function Suspended(s: State, t: Tid): State
    requires t in s.threads
  {
    Set(Unlink(s, t), t, s.threads[t].(stat := Suspend, timer := false))
  }

  function Priorities(s: State): map<Tid, nat> {
    map t | t in s.threads :: s.threads[t].prio
  }

  /** What the code asserts or takes for granted of its callers, who may resume a thread as often as they like. */
  predicate Possible(s: State, step: Step) {
    && step.t in s.threads
    && match step
       case Startup(t) => s.threads[t].stat.Init?
       case ResumeTake(t) => true
       case ResumePut(t) => s.gap[t] > 0
       case Resume(t) => true
       case SuspendSelf(t) => true
       case SuspendOn(t, _, _, _) => s.threads[t].stat.Ready?
       case Sleep(t) => s.threads[t].stat.Ready?
       case Timeout(t) => s.threads[t].timer
       case ChangePriority(t, _) => true
       case Yield(t) => true
       case Exit(t, _) => s.threads[t].stat.Ready?
  }

  /** Besides, no thread is resumed while another resume of it is in its gap. */
  predicate Legal(s: State, step: Step) {
    Possible(s, step) && (step.ResumeTake? || step.Resume? ==> s.gap[step.t] == 0)
  }

  function Next(s: State, step: Step): State
    requires Possible(s, step)
  {
    var t := step.t;
    var th := s.threads[t];
    match step
    case Startup(_) => Take(Set(s, t, th.(stat := Suspend, prio := th.initPrio)), t)
    case ResumeTake(_) => if th.stat.Suspend? then Take(s, t) else s
    case ResumePut(_) => Put(s, t)
    case Resume(_) => if th.stat.Suspend? then Put(Take(s, t), t) else s
    case SuspendSelf(_) => if th.stat.Ready? then Suspended(s, t) else s
    case SuspendOn(_, obj, flag, timed) =>
      var s1 := Suspended(s, t);
      var q := List(s1, WaitList(obj));
      // everyone in the list is known in every state that the invariant allows (WaitersKnown)
      var s2 := Link(s1, WaitList(obj), if Known(q, Priorities(s1)) then Enqueue(q, t, flag, Priorities(s1)) else q);
      Set(s2, t, s2.threads[t].(timer := timed))
    case Sleep(_) => var s1 := Suspended(s, t); Set(s1, t, s1.threads[t].(timer := true))
    case Timeout(_) => Insert(Unlink(Set(s, t, th.(timer := false, error := ETIMEOUT)), t), t)
    case ChangePriority(_, p) =>
      if th.stat.Ready? then Insert(Set(Unlink(s, t), t, th.(prio := p)), t) else Set(s, t, th.(prio := p))
    case Yield(_) =>
      var q := List(s, ReadyQueue(th.prio));
      if th.stat.Ready? && |q| >= 2 then Insert(Unlink(s, t), t) else s
    case Exit(_, keep) =>
      var s1 := Set(Unlink(s, t), t, th.(stat := Close, timer := false));
      if keep then Link(s1, Defunct, [t] + List(s1, Defunct)) else s1
  }

  // ---- What a step leaves alone ----

  /** Thread `u` and the lists it is in are as they were. */
  ghost predicate Same(s: State, s': State, u: Tid) {
    && (u in s'.threads <==> u in s.threads) && (u in s.threads ==> s'.threads[u] == s.threads[u])
    && s'.gap[u] == s.gap[u]
    && forall id {:trigger List(s, id)} {:trigger List(s', id)} :: u in List(s', id) <==> u in List(s, id)
  }

  ghost predicate Others(s: State, s': State, t: Tid) {
    forall u: Tid :: u != t ==> Same(s, s', u)
  }

  lemma SameOk(s: State, s': State, u: Tid)
    requires Same(s, s', u)
    ensures u in s.threads && ThreadOk(s, u) ==> ThreadOk(s', u)
    ensures Loose(s, u) ==> Loose(s', u)
  {
  }

  lemma OthersTwice(s: State, s1: State, s2: State, t: Tid)
    requires Others(s, s1, t) && Others(s1, s2, t)
    ensures Others(s, s2, t)
  {
    hide List;
    forall u: Tid | u != t ensures Same(s, s2, u) {
      assert Same(s, s1, u) && Same(s1, s2, u);
    }
  }

  /** A step that leaves all threads but one alone keeps the invariant if that one ends well placed. */
  lemma OneMoved(s: State, s': State, t: Tid)
    requires Inv(s) && t in s.threads && t in s'.threads && Others(s, s', t) && Clean(s') && ThreadOk(s', t)
    ensures Inv(s')
  {
    hide ThreadOk, Clean, Loose, Same;
    forall u | u in s'.threads ensures ThreadOk(s', u) {
      if u != t { SameThread(s, s', u); SameOk(s, s', u); }
    }
    forall u | u !in s'.threads ensures s'.gap[u] == 0 && Loose(s', u) {
      SameThread(s, s', u);
      SameOk(s, s', u);
    }
  }

  lemma SameThread(s: State, s': State, u: Tid)
    requires Same(s, s', u)
    ensures (u in s'.threads <==> u in s.threads) && s'.gap[u] == s.gap[u]
  {
  }

  lemma UnlinkAt(s: State, t: Tid, id: ListId)
    requires Clean(s)
    ensures NoDup(List(Unlink(s, t), id))
    ensures forall u :: u in List(Unlink(s, t), id) <==> u in List(s, id) && u != t
  {
    RemoveMembers(List(s, id), t);
  }

  lemma Unlinked(s: State, t: Tid)
    requires Clean(s)
    ensures Clean(Unlink(s, t)) && Loose(Unlink(s, t), t) && Others(s, Unlink(s, t), t)
  {
    var s' := Unlink(s, t);
    forall id ensures NoDup(List(s', id)) && forall u :: u in List(s', id) <==> u in List(s, id) && u != t {
      UnlinkAt(s, t, id);
    }
    hide Unlink, List, NoDup;
    UnlinkFields(s, t);
  }

  lemma UnlinkFields(s: State, t: Tid)
    ensures Unlink(s, t).threads == s.threads && Unlink(s, t).gap == s.gap
  {
  }

  /** Thread `t` is in list `id` and in no other. */
  ghost predicate OnlyIn(s: State, t: Tid, id: ListId) {
    t in List(s, id) && forall a {:trigger List(s, a)} :: t in List(s, a) ==> a == id
  }

  lemma Linked(s: State, t: Tid, id: ListId, q: seq<Tid>)
    requires Clean(s) && Loose(s, t) && NoDup(q) && forall u :: u in q <==> u in List(s, id) || u == t
    ensures Clean(Link(s, id, q)) && OnlyIn(Link(s, id, q), t, id) && Others(s, Link(s, id, q), t)
  {
    var s' := Link(s, id, q);
    forall a ensures List(s', a) == if a == id then q else List(s, a) {
    }
    hide List, NoDup;
  }

  /** Changing a thread's own fields, or its marks of being resumed, moves nothing. */
  lemma FieldsSet(s: State, s': State, t: Tid)
    requires t in s'.threads && s'.lists == s.lists && s'.threads == s.threads[t := s'.threads[t]]
    requires forall u :: u != t ==> s'.gap[u] == s.gap[u]
    ensures Others(s, s', t) && (Clean(s) ==> Clean(s')) && (Loose(s, t) ==> Loose(s', t))
    ensures forall id {:trigger OnlyIn(s', t, id)} :: OnlyIn(s, t, id) ==> OnlyIn(s', t, id)
  {
    forall id ensures List(s', id) == List(s, id) {
    }
    hide List, NoDup;
  }

  lemma AppendLast(q: seq<Tid>, t: Tid)
    requires NoDup(q) && t !in q
    ensures NoDup(q + [t]) && forall u :: u in q + [t] <==> u in q || u == t
  {
  }

  /** A loose thread inserted into its ready queue. */
  lemma Inserted(s: State, t: Tid)
    requires Clean(s) && Loose(s, t) && t in s.threads
    ensures var s' := Insert(s, t);
            && Clean(s') && Others(s, s', t) && OnlyIn(s', t, ReadyQueue(s.threads[t].prio))
            && s'.threads == s.threads[t := s.threads[t].(stat := Ready)] && s'.gap == s.gap
  {
    hide Clean, Loose, Others, OnlyIn, NoDup, List;
    var th := s.threads[t].(stat := Ready);
    var s1 := Set(s, t, th);
    var id := ReadyQueue(th.prio);
    FieldsSet(s, s1, t);
    LooseClean(s1, t, id);
    SameLists(s, s1, id);
    AppendLast(List(s1, id), t);
    Linked(s1, t, id, List(s1, id) + [t]);
    OthersTwice(s, s1, Insert(s, t), t);
  }

  lemma SameLists(s: State, s': State, id: ListId)
    requires s'.lists == s.lists
    ensures List(s', id) == List(s, id)
  {
  }

  lemma LooseClean(s: State, t: Tid, id: ListId)
    requires Clean(s) && Loose(s, t)
    ensures NoDup(List(s, id)) && t !in List(s, id)
  {
  }

  lemma PlacedIn(s: State, t: Tid, id: ListId)
    requires t in s.threads && OnlyIn(s, t, id) && Allowed(s.threads[t], id) && Timed(s, t) && s.gap[t] == 0
    ensures ThreadOk(s, t)
  {
  }

  lemma PlacedNowhere(s: State, t: Tid)
    requires t in s.threads && Loose(s, t) && !s.threads[t].stat.Ready? && Timed(s, t)
    ensures ThreadOk(s, t)
  {
  }

  // ---- The steps keep the invariant ----

  lemma InvParts(s: State, t: Tid)
    requires Inv(s) && t in s.threads
    ensures Clean(s) && ThreadOk(s, t) && Timed(s, t) && (s.gap[t] == 1 ==> Loose(s, t))
  {
  }

  /** A thread taken off its list, with its fields and its being resumed changed. */
  lemma Detached(s: State, s': State, t: Tid)
    requires Clean(s) && t in s'.threads && s'.lists == Unlink(s, t).lists
             && s'.threads == s.threads[t := s'.threads[t]]
    requires forall u :: u != t ==> s'.gap[u] == s.gap[u]
    ensures Clean(s') && Loose(s', t) && Others(s, s', t)
  {
    hide Clean, Loose, Others, OnlyIn;
    Unlinked(s, t);
    FieldsSet(Unlink(s, t), s', t);
    OthersTwice(s, Unlink(s, t), s', t);
  }

  /** A thread that is nowhere and not ready is well placed. */
  lemma NowhereKeeps(s: State, s': State, t: Tid)
    requires Inv(s) && t in s.threads && t in s'.threads && s'.lists == Unlink(s, t).lists
             && s'.threads == s.threads[t := s'.threads[t]]
    requires (forall u :: u != t ==> s'.gap[u] == s.gap[u]) && !s'.threads[t].stat.Ready? && Timed(s', t)
    ensures Inv(s') && Loose(s', t)
  {
    hide Inv, Clean, Loose, Others, ThreadOk, Timed;
    InvParts(s, t);
    Detached(s, s', t);
    PlacedNowhere(s', t);
    OneMoved(s, s', t);
  }

  /** A loose thread put into its ready queue is well placed. */
  lemma ReadyKeeps(s: State, s1: State, t: Tid)
    requires Inv(s) && t in s.threads && t in s1.threads && Others(s, s1, t) && Clean(s1) && Loose(s1, t)
    requires !s1.threads[t].timer && s1.gap[t] == 0
    ensures Inv(Insert(s1, t))
  {
    hide Inv, Clean, Loose, Others, ThreadOk, OnlyIn, List;
    Inserted(s1, t);
    var s' := Insert(s1, t);
    PlacedIn(s', t, ReadyQueue(s1.threads[t].prio));
    OthersTwice(s, s1, s', t);
    OneMoved(s, s', t);
  }

  lemma PutKeeps(s: State, t: Tid)
    requires Inv(s) && t in s.threads && s.gap[t] > 0
    ensures Inv(Put(s, t))
  {
    hide Inv, Clean, Loose, Others, ThreadOk, OnlyIn, Insert;
    InvParts(s, t);
    var s1 := s.(gap := s.gap - multiset{t});
    FieldsSet(s, s1, t);
    ReadyKeeps(s, s1, t);
  }

  lemma EnqueueFits(q: seq<Tid>, t: Tid, flag: Flag, prio: map<Tid, nat>)
    requires t in prio && Known(q, prio) && NoDup(q) && t !in q
    ensures var r := Enqueue(q, t, flag, prio); NoDup(r) && forall u :: u in r <==> u in q || u == t
  {
    EnqueueMembers(q, t, flag, prio);
  }

  lemma WaitersKnown(s: State, s1: State, t: Tid, id: ListId)
    requires Inv(s) && t in s.threads && t in s1.threads && s1.threads == s.threads[t := s1.threads[t]]
    requires s1.lists == Unlink(s, t).lists
    ensures Known(List(s1, id), Priorities(s1))
  {
    forall u | u in List(s1, id) ensures u in s1.threads {
      UnlinkAt(s, t, id);
    }
  }

  lemma SuspendOnKeeps(s: State, t: Tid, obj: nat, flag: Flag, timed: bool)
    requires Inv(s) && t in s.threads && s.threads[t].stat.Ready?
    ensures Inv(Next(s, SuspendOn(t, obj, flag, timed)))
  {
    hide Inv, Clean, Loose, Others, ThreadOk, OnlyIn, NoDup, Known, Enqueue, List, Unlink;
    InvParts(s, t);
    var s1 := Suspended(s, t);
    var id := WaitList(obj);
    UnlinkFields(s, t);
    Detached(s, s1, t);
    WaitersKnown(s, s1, t, id);
    LooseClean(s1, t, id);
    var q := Enqueue(List(s1, id), t, flag, Priorities(s1));
    EnqueueFits(List(s1, id), t, flag, Priorities(s1));
    Linked(s1, t, id, q);
    var s2 := Link(s1, id, q);
    var s' := Set(s2, t, s2.threads[t].(timer := timed));
    FieldsSet(s2, s', t);
    OthersTwice(s, s1, s2, t);
    OthersTwice(s, s2, s', t);
    PlacedIn(s', t, id);
    OneMoved(s, s', t);
  }

  lemma ExitKeeps(s: State, t: Tid, keep: bool)
    requires Inv(s) && t in s.threads && s.threads[t].stat.Ready?
    ensures Inv(Next(s, Exit(t, keep)))
  {
    hide Inv, Clean, Loose, Others, ThreadOk, OnlyIn, NoDup, List, Unlink;
    InvParts(s, t);
    var s1 := Set(Unlink(s, t), t, s.threads[t].(stat := Close, timer := false));
    UnlinkFields(s, t);
    NowhereKeeps(s, s1, t);
    if keep {
      InvParts(s1, t);
      LooseClean(s1, t, Defunct);
      PutFirst(List(s1, Defunct), t);
      Linked(s1, t, Defunct, [t] + List(s1, Defunct));
      var s' := Link(s1, Defunct, [t] + List(s1, Defunct));
      PlacedIn(s', t, Defunct);
      OneMoved(s1, s', t);
    }
  }

  lemma PutFirst(q: seq<Tid>, t: Tid)
    requires NoDup(q) && t !in q
    ensures NoDup([t] + q) && forall u :: u in [t] + q <==> u in q || u == t
  {
  }

  /** Every step of every thread keeps every thread well placed. */
  lemma StepKeepsInv(s: State, step: Step)
    requires Inv(s) && Legal(s, step)
    ensures Inv(Next(s, step))
  {
    hide Inv, Clean, Loose, Others, ThreadOk, OnlyIn, List, Unlink, Insert;
    var t := step.t;
    var th := s.threads[t];
    InvParts(s, t);
    UnlinkFields(s, t);
    match step
    case Startup(_) =>
      StartKeeps(s, t);
    case ResumeTake(_) =>
      if th.stat.Suspend? { NowhereKeeps(s, Take(s, t), t); }
    case ResumePut(_) =>
      PutKeeps(s, t);
    case Resume(_) =>
      if th.stat.Suspend? {
        NowhereKeeps(s, Take(s, t), t);
        PutKeeps(Take(s, t), t);
      }
    case SuspendSelf(_) =>
      if th.stat.Ready? { NowhereKeeps(s, Suspended(s, t), t); }
    case SuspendOn(_, obj, flag, timed) =>
      SuspendOnKeeps(s, t, obj, flag, timed);
    case Sleep(_) =>
      var s1 := Suspended(s, t);
      NowhereKeeps(s, Set(s1, t, s1.threads[t].(timer := true)), t);
    case Timeout(_) =>
      var s0 := Set(s, t, th.(timer := false, error := ETIMEOUT));
      UnlinkSet(s, t, s0.threads[t]);
      Detached(s, Unlink(s0, t), t);
      ReadyKeeps(s, Unlink(s0, t), t);
    case ChangePriority(_, p) =>
      if th.stat.Ready? {
        var s1 := Set(Unlink(s, t), t, th.(prio := p));
        Detached(s, s1, t);
        ReadyKeeps(s, s1, t);
      } else {
        PriorityKeeps(s, t, p);
      }
    case Yield(_) =>
      if Next(s, step) != s {
        Detached(s, Unlink(s, t), t);
        ReadyKeeps(s, Unlink(s, t), t);
      }
    case Exit(_, keep) =>
      ExitKeeps(s, t, keep);
  }

  lemma UnlinkSet(s: State, t: Tid, th: Thread)
    ensures Unlink(Set(s, t, th), t) == Set(Unlink(s, t), t, th)
  {
  }

  lemma StartKeeps(s: State, t: Tid)
    requires Inv(s) && t in s.threads && s.threads[t].stat.Init?
    ensures Inv(Next(s, Startup(t)))
  {
    hide Inv, Clean, Loose, Others, ThreadOk, List, Unlink;
    InvParts(s, t);
    var th := s.threads[t].(stat := Suspend, prio := s.threads[t].initPrio);
    UnlinkSet(s, t, th);
    UnlinkFields(s, t);
    NowhereKeeps(s, Take(Set(s, t, th), t), t);
  }

  /** The priority of a thread that is not ready changes in place. */
  lemma PriorityKeeps(s: State, t: Tid, p: nat)
    requires Inv(s) && t in s.threads && !s.threads[t].stat.Ready?
    ensures Inv(Set(s, t, s.threads[t].(prio := p)))
  {
    var s' := Set(s, t, s.threads[t].(prio := p));
    FieldsSet(s, s', t);
    forall id ensures List(s', id) == List(s, id) {
    }
    assert ThreadOk(s, t);
    hide Clean, List, Others, Loose;
    OneMoved(s, s', t);
  }

  // ---- Whole runs ----

  ghost predicate PossibleRun(s: State, steps: seq<Step>)
    decreases |steps|
  {
    steps == [] || (Possible(s, steps[0]) && PossibleRun(Next(s, steps[0]), steps[1..]))
  }

  ghost predicate LegalRun(s: State, steps: seq<Step>): (legal: bool)
    ensures legal ==> PossibleRun(s, steps)
    decreases |steps|
  {
    steps == [] || (Legal(s, steps[0]) && LegalRun(Next(s, steps[0]), steps[1..]))
  }

  ghost function Run(s: State, steps: seq<Step>): State
    requires PossibleRun(s, steps)
    decreases |steps|
  {
    if steps == [] then s else Run(Next(s, steps[0]), steps[1..])
  }

  /** Threads that are initialised only: in no list, and with their timers stopped. */
  ghost predicate Initial(s: State) {
    && (forall id {:trigger List(s, id)} :: List(s, id) == [])
    && (forall t :: t in s.threads ==> s.threads[t].stat.Init? && !s.threads[t].timer)
    && s.gap == multiset{}
  }

  lemma InitialInv(s: State)
    requires Initial(s)
    ensures Inv(s)
  {
  }

  lemma {:induction false} RunKeepsInv(s: State, steps: seq<Step>)
    requires Inv(s) && LegalRun(s, steps)
    ensures Inv(Run(s, steps))
    decreases |steps|
  {
    hide Inv, Legal, Next;
    if steps != [] {
      StepKeepsInv(s, steps[0]);
      RunKeepsInv(Next(s, steps[0]), steps[1..]);
    }
  }

  /** However the steps interleave, a timer that fires finds its thread suspended, as `rt_thread_timeout` asserts. */
  lemma TimeoutFindsSuspended(s: State, steps: seq<Step>, t: Tid)
    requires Inv(s) && LegalRun(s, steps)
    ensures var s' := Run(s, steps);
            t in s'.threads && s'.threads[t].timer ==> s'.threads[t].stat.Suspend? && s'.gap[t] == 0
  {
    RunKeepsInv(s, steps);
  }

  /** At every point a started thread is in its ready queue alone, in one wait list at most, or defunct. */
  lemma OnItsListOnly(s: State, steps: seq<Step>, t: Tid, id: ListId)
    requires Inv(s) && LegalRun(s, steps) && t in List(Run(s, steps), id)
    ensures var s' := Run(s, steps);
            && t in s'.threads && Allowed(s'.threads[t], id)
            && forall a :: t in List(s', a) ==> a == id
  {
    hide Run, LegalRun, Allowed;
    RunKeepsInv(s, steps);
    var s' := Run(s, steps);
    assert t !in s'.threads ==> Loose(s', t);
    assert ThreadOk(s', t);
  }

  // ---- Resuming a thread again inside the gap ----

  /** Every thread is once in at most one list, one its state allows: what a second resume can break. */
  ghost predicate Consistent(s: State) {
    Clean(s) && forall t :: if t in s.threads then Placed(s, t) else Loose(s, t)
  }

  /** The end of a resume that finds its thread in a list, where an earlier one has put it. */
  ghost predicate Collides(s: State, step: Step) {
    step.ResumePut? && !Loose(s, step.t)
  }

  predicate Untimed(th: Thread, th': Thread) {
    th'.(timer := th.timer) == th
  }

  /** The same but for timers and for resumes under way. */
  ghost predicate Alike(s: State, s': State) {
    && s'.lists == s.lists && s'.threads.Keys == s.threads.Keys
    && forall t :: t in s.threads ==> Untimed(s.threads[t], s'.threads[t])
  }

  lemma AlikeThread(s: State, s': State, t: Tid)
    requires Alike(s, s') && t in s.threads
    ensures t in s'.threads && Untimed(s.threads[t], s'.threads[t])
    ensures forall id :: List(s', id) == List(s, id)
  {
  }

  lemma AlikeSet(s: State, s': State, t: Tid, th: Thread, th': Thread)
    requires Alike(s, s') && Untimed(th, th')
    ensures Alike(Set(s, t, th), Set(s', t, th'))
  {
  }

  lemma AlikeUnlink(s: State, s': State, t: Tid)
    requires Alike(s, s')
    ensures Alike(Unlink(s, t), Unlink(s', t))
  {
  }

  lemma AlikeLink(s: State, s': State, id: ListId, q: seq<Tid>)
    requires Alike(s, s')
    ensures Alike(Link(s, id, q), Link(s', id, q))
  {
  }

  lemma AlikeGap(s: State, s': State, g: multiset<Tid>, g': multiset<Tid>)
    requires Alike(s, s')
    ensures Alike(s.(gap := g), s'.(gap := g'))
  {
  }

  lemma AlikeInsert(s: State, s': State, t: Tid)
    requires Alike(s, s') && t in s.threads && t in s'.threads
    ensures Alike(Insert(s, t), Insert(s', t))
  {
    hide Alike, List;
    AlikeThread(s, s', t);
    var th, th' := s.threads[t].(stat := Ready), s'.threads[t].(stat := Ready);
    AlikeSet(s, s', t, th, th');
    AlikeThread(Set(s, t, th), Set(s', t, th'), t);
    AlikeLink(Set(s, t, th), Set(s', t, th'), ReadyQueue(th.prio), List(s, ReadyQueue(th.prio)) + [t]);
  }

  lemma AlikeTake(s: State, s': State, t: Tid)
    requires Alike(s, s') && t in s.threads && t in s'.threads
    ensures Alike(Take(s, t), Take(s', t))
  {
    hide Alike, Unlink, List;
    AlikeThread(s, s', t);
    AlikeUnlink(s, s', t);
    var th, th' := s.threads[t].(timer := false), s'.threads[t].(timer := false);
    AlikeSet(Unlink(s, t), Unlink(s', t), t, th, th');
    AlikeGap(Set(Unlink(s, t), t, th), Set(Unlink(s', t), t, th'), s.gap + multiset{t}, s'.gap + multiset{t});
  }

  lemma AlikePut(s: State, s': State, t: Tid)
    requires Alike(s, s') && t in s.threads && t in s'.threads
    ensures Alike(Put(s, t), Put(s', t))
  {
    hide Alike, Insert;
    AlikeGap(s, s', s.gap - multiset{t}, s'.gap - multiset{t});
    AlikeInsert(s.(gap := s.gap - multiset{t}), s'.(gap := s'.gap - multiset{t}), t);
  }

  lemma AlikeSuspended(s: State, s': State, t: Tid)
    requires Alike(s, s') && t in s.threads && t in s'.threads
    ensures Alike(Suspended(s, t), Suspended(s', t)) && Priorities(Suspended(s, t)) == Priorities(Suspended(s', t))
  {
    hide Alike, Unlink, List;
    AlikeThread(s, s', t);
    AlikeUnlink(s, s', t);
    AlikeSet(Unlink(s, t), Unlink(s', t), t, s.threads[t].(stat := Suspend, timer := false),
             s'.threads[t].(stat := Suspend, timer := false));
    AlikePriorities(Suspended(s, t), Suspended(s', t));
  }

  lemma AlikePriorities(s: State, s': State)
    requires Alike(s, s')
    ensures Priorities(s) == Priorities(s')
  {
  }

  /** Timers and resumes under way decide which steps are possible, and nothing about what those do to the lists. */
  lemma AlikeNext(s: State, s': State, step: Step)
    requires Alike(s, s') && Possible(s, step) && Possible(s', step)
    ensures Alike(Next(s, step), Next(s', step))
  {
    hide Alike, Unlink, List, Set, Link, Insert, Take, Put, Suspended, Priorities, Known, Enqueue;
    var t := step.t;
    var th, th' := s.threads[t], s'.threads[t];
    AlikeThread(s, s', t);
    match step
    case Startup(_) => StartAlike(s, s', t);
    case ResumeTake(_) => AlikeTake(s, s', t);
    case ResumePut(_) => AlikePut(s, s', t);
    case Resume(_) =>
      AlikeTake(s, s', t);
      TakeFields(s, t);
      TakeFields(s', t);
      AlikePut(Take(s, t), Take(s', t), t);
    case SuspendSelf(_) => AlikeSuspended(s, s', t);
    case SuspendOn(_, obj, flag, timed) => SuspendOnAlike(s, s', t, obj, flag, timed);
    case Sleep(_) => SleepAlike(s, s', t);
    case Timeout(_) => TimeoutAlike(s, s', t);
    case ChangePriority(_, p) => PriorityAlike(s, s', t, p);
    case Yield(_) =>
      AlikeUnlink(s, s', t);
      UnlinkFields(s, t);
      UnlinkFields(s', t);
      AlikeInsert(Unlink(s, t), Unlink(s', t), t);
    case Exit(_, keep) => ExitAlike(s, s', t, keep);
  }

  lemma TakeFields(s: State, t: Tid)
    requires t in s.threads
    ensures t in Take(s, t).threads && Take(s, t).gap == s.gap + multiset{t}
  {
  }

  lemma StartAlike(s: State, s': State, t: Tid)
    requires Alike(s, s') && Possible(s, Startup(t)) && Possible(s', Startup(t))
    ensures Alike(Next(s, Startup(t)), Next(s', Startup(t)))
  {
    hide Alike, Take, List;
    AlikeThread(s, s', t);
    var th := s.threads[t].(stat := Suspend, prio := s.threads[t].initPrio);
    var th' := s'.threads[t].(stat := Suspend, prio := s'.threads[t].initPrio);
    AlikeSet(s, s', t, th, th');
    AlikeTake(Set(s, t, th), Set(s', t, th'), t);
  }

  lemma SuspendOnAlike(s: State, s': State, t: Tid, obj: nat, flag: Flag, timed: bool)
    requires Alike(s, s') && Possible(s, SuspendOn(t, obj, flag, timed)) && Possible(s', SuspendOn(t, obj, flag, timed))
    ensures Alike(Next(s, SuspendOn(t, obj, flag, timed)), Next(s', SuspendOn(t, obj, flag, timed)))
  {
    hide Alike, List, Unlink, Priorities, Known, Enqueue;
    AlikeSuspended(s, s', t);
    var s1, s1' := Suspended(s, t), Suspended(s', t);
    AlikeThread(s1, s1', t);
    var id, q, prio := WaitList(obj), List(s1, WaitList(obj)), Priorities(s1);
    PrioritiesKeys(s1);
    var r := if Known(q, prio) then Enqueue(q, t, flag, prio) else q;
    AlikeLink(s1, s1', id, r);
    AlikeSet(Link(s1, id, r), Link(s1', id, r), t, s1.threads[t].(timer := timed), s1'.threads[t].(timer := timed));
  }

  lemma PrioritiesKeys(s: State)
    ensures Priorities(s).Keys == s.threads.Keys
  {
  }

  lemma SleepAlike(s: State, s': State, t: Tid)
    requires Alike(s, s') && Possible(s, Sleep(t)) && Possible(s', Sleep(t))
    ensures Alike(Next(s, Sleep(t)), Next(s', Sleep(t)))
  {
    hide Alike, List, Unlink, Priorities;
    AlikeSuspended(s, s', t);
    var s1, s1' := Suspended(s, t), Suspended(s', t);
    AlikeThread(s1, s1', t);
    AlikeSet(s1, s1', t, s1.threads[t].(timer := true), s1'.threads[t].(timer := true));
  }

  lemma TimeoutAlike(s: State, s': State, t: Tid)
    requires Alike(s, s') && Possible(s, Timeout(t)) && Possible(s', Timeout(t))
    ensures Alike(Next(s, Timeout(t)), Next(s', Timeout(t)))
  {
    hide Alike, List, Unlink, Insert;
    AlikeThread(s, s', t);
    var s0 := Set(s, t, s.threads[t].(timer := false, error := ETIMEOUT));
    var s0' := Set(s', t, s'.threads[t].(timer := false, error := ETIMEOUT));
    AlikeSet(s, s', t, s0.threads[t], s0'.threads[t]);
    AlikeUnlink(s0, s0', t);
    UnlinkFields(s0, t);
    UnlinkFields(s0', t);
    AlikeInsert(Unlink(s0, t), Unlink(s0', t), t);
  }

  lemma PriorityAlike(s: State, s': State, t: Tid, p: nat)
    requires Alike(s, s') && Possible(s, ChangePriority(t, p)) && Possible(s', ChangePriority(t, p))
    ensures Alike(Next(s, ChangePriority(t, p)), Next(s', ChangePriority(t, p)))
  {
    hide Alike, List, Unlink, Insert;
    AlikeThread(s, s', t);
    var th, th' := s.threads[t].(prio := p), s'.threads[t].(prio := p);
    AlikeSet(s, s', t, th, th');
    AlikeUnlink(s, s', t);
    AlikeSet(Unlink(s, t), Unlink(s', t), t, th, th');
    AlikeInsert(Set(Unlink(s, t), t, th), Set(Unlink(s', t), t, th'), t);
  }

  lemma ExitAlike(s: State, s': State, t: Tid, keep: bool)
    requires Alike(s, s') && Possible(s, Exit(t, keep)) && Possible(s', Exit(t, keep))
    ensures Alike(Next(s, Exit(t, keep)), Next(s', Exit(t, keep)))
  {
    hide Alike, List, Unlink;
    AlikeThread(s, s', t);
    AlikeUnlink(s, s', t);
    var s1 := Set(Unlink(s, t), t, s.threads[t].(stat := Close, timer := false));
    var s1' := Set(Unlink(s', t), t, s'.threads[t].(stat := Close, timer := false));
    AlikeSet(Unlink(s, t), Unlink(s', t), t, s1.threads[t], s1'.threads[t]);
    AlikeThread(s1, s1', t);
    AlikeLink(s1, s1', Defunct, [t] + List(s1, Defunct));
  }

  lemma AlikeConsistent(s: State, s': State)
    requires Alike(s, s') && Consistent(s)
    ensures Consistent(s')
  {
    forall id ensures List(s', id) == List(s, id) {
    }
    hide List, NoDup;
    forall t | t in s'.threads ensures Placed(s', t) {
      assert Placed(s, t) && Untimed(s.threads[t], s'.threads[t]);
    }
    forall t | t !in s'.threads ensures Loose(s', t) {
      assert Loose(s, t);
    }
  }

  /** The state with timers and resumes under way left out, where the invariant says no more than consistency. */
  function Calm(s: State): State {
    s.(threads := map t | t in s.threads :: s.threads[t].(timer := false), gap := multiset{})
  }

  lemma CalmInv(s: State)
    requires Consistent(s)
    ensures Inv(Calm(s)) && Alike(s, Calm(s)) && Alike(Calm(s), s)
  {
    assert Alike(s, Calm(s)) && Alike(Calm(s), s);
    AlikeConsistent(s, Calm(s));
    hide Clean, Placed, Loose, Alike;
  }

  lemma InvConsistent(s: State)
    requires Inv(s)
    ensures Consistent(s)
  {
    hide Clean, Timed, Loose;
    forall t | t in s.threads ensures Placed(s, t) {
      assert ThreadOk(s, t);
    }
  }

  lemma InsertLoose(s: State, t: Tid)
    requires Inv(s) && t in s.threads && Loose(s, t) && !s.threads[t].timer && s.gap[t] == 0
    ensures Inv(Insert(s, t))
  {
    hide Inv, Clean, Loose, ThreadOk, Insert, List;
    InvParts(s, t);
    ReadyKeeps(s, s, t);
  }

  lemma InsertLinked(s: State, t: Tid)
    requires t in s.threads && !Loose(s, t)
    ensures !Consistent(Insert(s, t))
  {
    var s', ready := Insert(s, t), ReadyQueue(s.threads[t].prio);
    var id :| t in List(s, id);
    var q := List(s, ready);
    assert List(s', ready) == q + [t] && (q + [t])[|q|] == t;
    if id == ready {
      var k :| 0 <= k < |q| && q[k] == t;
      assert (q + [t])[k] == t && !NoDup(q + [t]);
    } else {
      assert List(s', id) == List(s, id);
      assert !Placed(s', t);
    }
  }

  lemma CalmFields(s: State, t: Tid)
    requires t in s.threads
    ensures t in Calm(s).threads && !Calm(s).threads[t].timer && Calm(s).gap[t] == 0
    ensures Loose(Calm(s), t) <==> Loose(s, t)
  {
    forall id ensures List(Calm(s), id) == List(s, id) {
    }
    hide List;
  }

  /** A thread put into its ready queue: consistent exactly if it was in no list. */
  lemma InsertCollides(s: State, t: Tid)
    requires Consistent(s) && t in s.threads
    ensures Consistent(Insert(s, t)) <==> Loose(s, t)
  {
    hide Consistent, Insert, Loose, Calm, Alike;
    var s0 := Calm(s);
    CalmInv(s);
    CalmFields(s, t);
    AlikeInsert(s0, s, t);
    if Loose(s, t) {
      InsertLoose(s0, t);
      InvConsistent(Insert(s0, t));
      AlikeConsistent(Insert(s0, t), Insert(s, t));
    } else {
      InsertLinked(s, t);
    }
  }

  lemma PutCollides(s: State, t: Tid)
    requires Consistent(s) && t in s.threads
    ensures Consistent(Put(s, t)) <==> Loose(s, t)
  {
    var s1 := s.(gap := s.gap - multiset{t});
    assert Alike(s, s1);
    AlikeConsistent(s, s1);
    assert forall id :: List(s1, id) == List(s, id);
    assert Loose(s1, t) <==> Loose(s, t);
    hide Consistent, Loose, List, Insert;
    InsertCollides(s1, t);
  }

  lemma TimeoutConsistent(s: State, t: Tid)
    requires Consistent(s) && Possible(s, Timeout(t))
    ensures Consistent(Next(s, Timeout(t)))
  {
    hide Inv, Consistent, Clean, Loose, Others, ThreadOk, List, Unlink, Insert, Alike, Calm;
    var s0 := Calm(s);
    CalmInv(s);
    CalmFields(s, t);
    AlikeThread(s0, s, t);
    InvParts(s0, t);
    var th0, th := s0.threads[t].(error := ETIMEOUT), s.threads[t].(timer := false, error := ETIMEOUT);
    UnlinkSet(s0, t, th0);
    UnlinkFields(s0, t);
    Detached(s0, Unlink(Set(s0, t, th0), t), t);
    ReadyKeeps(s0, Unlink(Set(s0, t, th0), t), t);
    InvConsistent(Insert(Unlink(Set(s0, t, th0), t), t));
    AlikeSet(s0, s, t, th0, th);
    AlikeUnlink(Set(s0, t, th0), Set(s, t, th), t);
    UnlinkFields(Set(s0, t, th0), t);
    UnlinkFields(Set(s, t, th), t);
    AlikeInsert(Unlink(Set(s0, t, th0), t), Unlink(Set(s, t, th), t), t);
    AlikeConsistent(Insert(Unlink(Set(s0, t, th0), t), t), Next(s, Timeout(t)));
  }

  lemma CalmLegal(s: State, step: Step)
    requires Possible(s, step) && !step.ResumePut? && !step.Timeout?
    ensures Legal(Calm(s), step)
  {
  }

  /** Every step of every interleaving keeps the lists consistent, if and only if it is no such end of a resume. */
  lemma StepCollides(s: State, step: Step)
    requires Consistent(s) && Possible(s, step)
    ensures Consistent(Next(s, step)) <==> !Collides(s, step)
  {
    if step.ResumePut? {
      hide Consistent, Put, Loose;
      PutCollides(s, step.t);
    } else if step.Timeout? {
      hide Consistent, Next;
      TimeoutConsistent(s, step.t);
    } else {
      hide Consistent, Loose, Next, Possible, Calm, Inv;
      var s0 := Calm(s);
      CalmInv(s);
      CalmLegal(s, step);
      StepKeepsInv(s0, step);
      InvConsistent(Next(s0, step));
      AlikeNext(s0, s, step);
      AlikeConsistent(Next(s0, step), Next(s, step));
    }
  }

  /** At no point of the run is a thread in two lists, or twice in one, or in one its state forbids. */
  ghost predicate AlwaysConsistent(s: State, steps: seq<Step>)
    requires PossibleRun(s, steps)
    decreases |steps|
  {
    Consistent(s) && (steps == [] || AlwaysConsistent(Next(s, steps[0]), steps[1..]))
  }

  ghost predicate NeverCollides(s: State, steps: seq<Step>)
    requires PossibleRun(s, steps)
    decreases |steps|
  {
    steps == [] || (!Collides(s, steps[0]) && NeverCollides(Next(s, steps[0]), steps[1..]))
  }

  /** Over any run of any number of overlapping resumes: consistent throughout if and only if none of them collides. */
  lemma {:induction false} ConsistentIffApart(s: State, steps: seq<Step>)
    requires Consistent(s) && PossibleRun(s, steps)
    ensures AlwaysConsistent(s, steps) <==> NeverCollides(s, steps)
    decreases |steps|
  {
    hide Consistent, Collides, Next, Possible;
    if steps != [] {
      StepCollides(s, steps[0]);
      if !Collides(s, steps[0]) {
        ConsistentIffApart(Next(s, steps[0]), steps[1..]);
      }
    }
  }

  /** With one resume of a thread at a time none does. */
  lemma {:induction false} OneAtATime(s: State, steps: seq<Step>)
    requires Inv(s) && LegalRun(s, steps)
    ensures NeverCollides(s, steps)
    decreases |steps|
  {
    hide Inv, Next, Loose;
    if steps != [] {
      InvParts(s, steps[0].t);
      StepKeepsInv(s, steps[0]);
      OneAtATime(Next(s, steps[0]), steps[1..]);
    }
  }

  lemma PutLinked(s: State, t: Tid)
    requires t in s.threads
    ensures var s1 := Put(s, t);
            t in s1.threads && s1.gap == s.gap - multiset{t} && !Loose(s1, t)
            && !Loose(s1.(gap := s1.gap - multiset{t}), t)
  {
    var s1, id := Put(s, t), ReadyQueue(s.threads[t].prio);
    var q := List(s, id);
    assert List(s1, id) == q + [t] && (q + [t])[|q|] == t;
    assert List(s1.(gap := s1.gap - multiset{t}), id) == List(s1, id);
  }

  lemma PutInserts(s: State, t: Tid)
    requires t in s.threads
    ensures Put(s, t) == Insert(s.(gap := s.gap - multiset{t}), t)
  {
  }

  /** Resuming a suspended thread, and completing all resumes of it that are then under way, needs that none was. */
  lemma ResumedTwice(s: State, t: Tid)
    requires Inv(s) && t in s.threads && s.threads[t].stat.Suspend?
    ensures Inv(if s.gap[t] == 0 then Put(Take(s, t), t) else Put(Put(Take(s, t), t), t)) <==> s.gap[t] == 0
  {
    hide Inv, Consistent, Put, Take, Loose, Insert;
    TakeFields(s, t);
    PutLinked(Take(s, t), t);
    if s.gap[t] == 0 {
      StepKeepsInv(s, Resume(t));
    } else {
      var s1 := Put(Take(s, t), t);
      PutInserts(s1, t);
      if Inv(Put(s1, t)) {
        InvConsistent(Put(s1, t));
        InsertLinked(s1.(gap := s1.gap - multiset{t}), t);
      }
    }
  }

  /** Resuming a thread that is being started, from another thread, is enough. */
  lemma StartedTwice(s: State, t: Tid)
    requires Initial(s) && t in s.threads
    ensures var steps := [Startup(t), ResumeTake(t), ResumePut(t), ResumePut(t)];
            PossibleRun(s, steps) && !NeverCollides(s, steps) && !AlwaysConsistent(s, steps)
  {
    hide Inv, Consistent, Initial, Loose, Clean, Unlink, Insert, Set;
    InitialInv(s);
    InvConsistent(s);
    StartFields(s, t);
    var s1 := Next(s, Startup(t));
    TakeFields(s1, t);
    var s2 := Next(s1, ResumeTake(t));
    PutLinked(s2, t);
    var s3 := Next(s2, ResumePut(t));
    var steps := [Startup(t), ResumeTake(t), ResumePut(t), ResumePut(t)];
    assert steps[1..] == [ResumeTake(t), ResumePut(t), ResumePut(t)];
    assert steps[1..][1..] == [ResumePut(t), ResumePut(t)];
    assert steps[1..][1..][1..] == [ResumePut(t)];
    assert PossibleRun(s3, steps[1..][1..][1..]) && !NeverCollides(s3, steps[1..][1..][1..]);
    assert PossibleRun(s2, steps[1..][1..]) && !NeverCollides(s2, steps[1..][1..]);
    assert PossibleRun(s1, steps[1..]) && !NeverCollides(s1, steps[1..]);
    ConsistentIffApart(s, steps);
  }

  lemma StartFields(s: State, t: Tid)
    requires Initial(s) && t in s.threads
    ensures Possible(s, Startup(t))
    ensures var s1 := Next(s, Startup(t)); t in s1.threads && s1.threads[t].stat.Suspend? && s1.gap[t] == 1
  {
  }

  /** The thread table in place. */
  class ThreadTable {
    var threads: map<Tid, Thread>
    var lists: map<ListId, seq<Tid>>
    ghost var gap: multiset<Tid>

    ghost function Abs(): State
      reads this
    {
      State(threads, lists, gap)
    }

    method ListRemove(t: Tid)
      modifies this`lists
      ensures Abs() == Unlink(old(Abs()), t)
    {
      lists := map id | id in lists :: Remove(lists[id], t);
    }

    method SetStat(t: Tid, stat: Stat)
      requires t in threads
      modifies this`threads
      ensures threads == old(threads)[t := old(threads[t]).(stat := stat)]
    {
      threads := threads[t := threads[t].(stat := stat)];
    }

    method TimerStop(t: Tid)
      requires t in threads
      modifies this`threads
      ensures threads == old(threads)[t := old(threads[t]).(timer := false)]
    {
      threads := threads[t := threads[t].(timer := false)];
    }

    /** `rt_schedule_insert_thread` */
    method InsertThread(t: Tid)
      requires t in threads
      modifies this`threads, this`lists
      ensures Abs() == Insert(old(Abs()), t)
    {
      SetStat(t, Ready);
      var id := ReadyQueue(threads[t].prio);
      lists := lists[id := (if id in lists then lists[id] else []) + [t]];
    }

    /** `rt_thread_suspend` */
    method SuspendThread(t: Tid) returns (err: Err)
      requires t in threads
      modifies this`threads, this`lists
      ensures Abs() == Next(old(Abs()), SuspendSelf(t)) && (err == EOK <==> old(threads[t]).stat.Ready?)
    {
      hide Unlink;
      if threads[t].stat != Ready { return ERROR; }
      SetStat(t, Suspend);
      ghost var th := threads[t];
      ListRemove(t);
      UnlinkSet(old(Abs()), t, th);
      TimerStop(t);
      err := EOK;
    }

    /** The locked part of `rt_thread_resume`. */
    method ResumeBegin(t: Tid) returns (err: Err)
      requires t in threads
      modifies this
      ensures Abs() == Next(old(Abs()), ResumeTake(t)) && (err == EOK <==> old(threads[t]).stat.Suspend?)
    {
      hide Unlink;
      if threads[t].stat != Suspend { return ERROR; }
      UnlinkFields(Abs(), t);
      ListRemove(t);
      TimerStop(t);
      gap := gap + multiset{t};
      err := EOK;
    }

    /** The rest of `rt_thread_resume`. */
    method ResumeEnd(t: Tid)
      requires t in threads && gap[t] > 0
      modifies this
      ensures Abs() == Next(old(Abs()), ResumePut(t))
    {
      gap := gap - multiset{t};
      InsertThread(t);
    }

    /** `rt_ipc_list_suspend` and, for a positive timeout, the start of the thread's timer. */
    method SuspendOnList(t: Tid, obj: nat, flag: Flag, timed: bool)
      requires Inv(Abs()) && t in threads && threads[t].stat.Ready?
      modifies this`threads, this`lists
      ensures Abs() == Next(old(Abs()), SuspendOn(t, obj, flag, timed))
    {
      hide Inv, Unlink;
      ghost var s0 := Abs();
      UnlinkFields(s0, t);
      var _ := SuspendThread(t);
      WaitersKnown(s0, Abs(), t, WaitList(obj));
      var id := WaitList(obj);
      var prio := map u | u in threads :: threads[u].prio;
      assert prio == Priorities(Abs());
      var q := ListSuspend(if id in lists then lists[id] else [], t, flag, prio);
      lists := lists[id := q];
      threads := threads[t := threads[t].(timer := timed)];
    }

    /** `rt_thread_timeout`, called by the timer of a thread after the timer was taken off its list. */
    method TimeoutThread(t: Tid)
      requires Inv(Abs()) && t in threads && threads[t].timer
      modifies this`threads, this`lists
      ensures Abs() == Next(old(Abs()), Timeout(t))
    {
      hide Unlink;
      InvParts(Abs(), t);
      TimerStop(t);
      assert threads[t].stat.Suspend?;
      threads := threads[t := threads[t].(error := ETIMEOUT)];
      assert threads == old(threads)[t := old(threads[t]).(timer := false, error := ETIMEOUT)];
      ListRemove(t);
      InsertThread(t);
    }

    /** RT_THREAD_CTRL_CHANGE_PRIORITY of `rt_thread_control` */
    method Control(t: Tid, prio: nat)
      requires t in threads
      modifies this`threads, this`lists
      ensures Abs() == Next(old(Abs()), ChangePriority(t, prio))
    {
      hide Unlink;
      if threads[t].stat == Ready {
        UnlinkFields(Abs(), t);
        ListRemove(t);
        threads := threads[t := threads[t].(prio := prio)];
        InsertThread(t);
      } else {
        threads := threads[t := threads[t].(prio := prio)];
      }
    }

    /** `rt_thread_yield` */
    method YieldThread(t: Tid)
      requires t in threads
      modifies this`threads, this`lists
      ensures Abs() == Next(old(Abs()), Yield(t))
    {
      hide Unlink;
      var id := ReadyQueue(threads[t].prio);
      if threads[t].stat == Ready && id in lists && |lists[id]| >= 2 {
        UnlinkFields(Abs(), t);
        ListRemove(t);
        InsertThread(t);
      }
    }

    /** `rt_thread_exit` by the running thread; a static thread without a cleanup function is not kept. */
    method ExitThread(t: Tid, keep: bool)
      requires t in threads && threads[t].stat.Ready?
      modifies this`threads, this`lists
      ensures Abs() == Next(old(Abs()), Exit(t, keep))
    {
      hide Unlink;
      UnlinkFields(Abs(), t);
      ListRemove(t);
      SetStat(t, Close);
      TimerStop(t);
      if keep {
        lists := lists[Defunct := [t] + (if Defunct in lists then lists[Defunct] else [])];
      }
    }
  }
}
