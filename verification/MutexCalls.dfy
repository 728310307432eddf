/**
 What a mutex answers to its callers, and what each answer does: exactly when a take succeeds, waits or is refused,
 that every release by the owner succeeds and undoes one take, and whom a last release passes the mutex on to.
 */
module MutexCalls {
  import opened Common
  import opened Waiting
  import opened Mutex

  /** No other thread's call moves on, and no other thread's error or timer changes. */
  ghost predicate OthersWait(s: State, s': State, t: Tid) {
    && s'.flag == s.flag && s'.place.Keys == s.place.Keys && s'.error.Keys == s.error.Keys
    && forall u :: u != t ==>
         && (u in s.place && u in s.error ==> s'.place[u] == s.place[u] && s'.error[u] == s.error[u])
         && (u in s'.timers <==> u in s.timers)
  }

  ghost predicate SameHolder(s: State, s': State) {
    s'.owner == s.owner && s'.hold == s.hold && s'.value == s.value
  }

  /** Nobody's priority changes but that of `o`. */
  ghost predicate OnlyPriority(s: State, s': State, o: Tid) {
    s'.prio.Keys == s.prio.Keys && forall u :: u in s.prio && u != o ==> s'.prio[u] == s.prio[u]
  }

  /** As `OthersWait`, but that the first of `q` loses its timer. */
  ghost predicate OthersWaitBut(s: State, s': State, t: Tid, q: seq<Tid>) {
    && s'.flag == s.flag && s'.error.Keys == s.error.Keys
    && forall u :: u != t ==>
         && (u in s.error ==> s'.error[u] == s.error[u])
         && (u in s'.timers <==> u in s.timers && !(q != [] && u == q[0]))
  }

  /** The owner nests; the counter is a byte. */
  ghost predicate Nested(s: State, s': State, t: Tid, out: Output) {
    && out == Taken(t) && s'.owner == s.owner && s'.value == s.value
    && s'.hold == (if s.hold < 255 then s.hold + 1 else 0)
    && s'.queue == s.queue && s'.prio == s.prio && s'.place == s.place
  }

  ghost predicate Acquired(s: State, s': State, t: Tid, out: Output) {
    && out == Taken(t) && s'.owner == Some(t) && s'.hold == 1 && s'.value == 0
    && s'.queue == [] && s'.prio == s.prio && s'.place == s.place
  }

  ghost predicate Declined(s: State, s': State, out: Output, e: Err) {
    out == Refused(e) && SameHolder(s, s') && s'.queue == s.queue && s'.prio == s.prio && s'.place == s.place
  }

  /** In the wait list by its priority, with the owner lent that priority if it is the more urgent one. */
  ghost predicate Suspended(s: State, s': State, t: Tid, timeout: int, out: Output) {
    && out == Blocked && SameHolder(s, s') && t in s'.place && s'.place[t] == Waiting
    && t in s'.error && s'.error[t] == EOK && (t in s'.timers <==> timeout > 0)
    && Known(s.queue, s'.prio) && t in s'.prio && s'.queue == Enqueue(s.queue, t, s.flag, s'.prio)
    && t in s.prio && s.owner.Some? && s.owner.value in s.prio && OnlyPriority(s, s', s.owner.value)
    && s'.prio[s.owner.value] == if s.prio[t] < s.prio[s.owner.value] then s.prio[t] else s.prio[s.owner.value]
  }

  lemma HolderFacts(s: State)
    requires Inv(s)
    ensures WellFormed(s) && (s.owner == None <==> s.value > 0) && (s.owner == None <==> s.hold == 0) && s.hold < 256
    ensures s.value <= 1 && (s.queue != [] ==> s.owner.Some? && s.queue[0] in s.prio)
    ensures s.owner.Some? ==> s.owner.value in s.prio && s.owner.value in s.base && s.original == s.base[s.owner.value]
    ensures NoDup(s.queue)
  {
    if s.queue != [] { assert s.queue[0] in s.queue; }
  }

  lemma TakeOwn(s: State, t: Tid, timeout: int)
    requires WellFormed(s) && t in s.prio && s.owner == Some(t) && s.hold < 256
    ensures var (s', out) := TakeStep(s, t, timeout); Nested(s, s', t, out) && OthersWait(s, s', t)
  {
  }

  lemma TakeUnowned(s: State, t: Tid, timeout: int)
    requires WellFormed(s) && t in s.prio && s.owner == None && s.value == 1 && s.hold == 0 && s.queue == []
    ensures var (s', out) := TakeStep(s, t, timeout); Acquired(s, s', t, out) && OthersWait(s, s', t)
  {
  }

  lemma TakeBusyNow(s: State, t: Tid)
    requires WellFormed(s) && t in s.prio && s.owner.Some? && s.owner != Some(t) && s.value == 0
    ensures var (s', out) := TakeStep(s, t, 0); Declined(s, s', out, ETIMEOUT) && OthersWait(s, s', t)
  {
  }

  lemma TakeBusyLater(s: State, t: Tid, timeout: int)
    requires WellFormed(s) && t in s.prio && s.owner.Some? && s.owner != Some(t) && s.value == 0 && timeout != 0
    ensures var (s', out) := TakeStep(s, t, timeout); Suspended(s, s', t, timeout, out) && OthersWait(s, s', t)
  {
    hide Enqueue;
  }

  /** A take succeeds for the owner and on a free mutex; otherwise it waits, or may not. */
  lemma TakeAnswers(s: State, t: Tid, timeout: int)
    requires Inv(s) && Enabled(s, Take(t, timeout))
    ensures var (s', out) := Step(s, Take(t, timeout));
            && OthersWait(s, s', t)
            && if s.owner == Some(t) then Nested(s, s', t, out)
               else if s.owner == None then Acquired(s, s', t, out)
               else if timeout == 0 then Declined(s, s', out, ETIMEOUT)
               else Suspended(s, s', t, timeout, out)
  {
    hide Inv, WellFormed, TakeStep, Nested, Acquired, Declined, Suspended, OthersWait, NoDup;
    HolderFacts(s);
    PriorityKnown(s, t);
    if s.owner == Some(t) { TakeOwn(s, t, timeout); }
    else if s.owner == None { TakeUnowned(s, t, timeout); }
    else if timeout == 0 { TakeBusyNow(s, t); }
    else { TakeBusyLater(s, t, timeout); }
  }

  lemma PriorityKnown(s: State, t: Tid)
    requires WellFormed(s) && t in s.place
    ensures t in s.prio
  {
  }

  /** One take undone. */
  ghost predicate Unnested(s: State, s': State, t: Tid, out: Output) {
    && out == Released(t) && s'.owner == s.owner && s'.hold == s.hold - 1 && s'.value == s.value
    && s'.queue == s.queue && s'.prio == s.prio
  }

  /** The mutex is free, or the first waiter's, and the old owner is back at its own priority. */
  ghost predicate PassedOn(s: State, s': State, t: Tid, out: Output) {
    && out == Released(t) && OnlyPriority(s, s', t)
    && t in s'.prio && t in s.base && s'.prio[t] == s.base[t]
    && if s.queue == [] then s'.owner == None && s'.hold == 0 && s'.value == 1 && s'.queue == []
       else s'.owner == Some(s.queue[0]) && s'.hold == 1 && s'.value == 0 && s'.queue == s.queue[1..]
  }

  lemma ReleaseOther(s: State, t: Tid)
    requires WellFormed(s) && t in s.prio && s.owner != Some(t)
    ensures var (s', out) := ReleaseStep(s, t); Declined(s, s', out, ERROR) && OthersWaitBut(s, s', t, [])
  {
  }

  lemma ReleaseNested(s: State, t: Tid)
    requires WellFormed(s) && t in s.prio && s.owner == Some(t) && 1 < s.hold < 256
    ensures var (s', out) := ReleaseStep(s, t);
            Unnested(s, s', t, out) && s'.place == s.place && OthersWaitBut(s, s', t, [])
  {
    hide HandOver;
  }

  lemma ReleaseLast(s: State, t: Tid)
    requires WellFormed(s) && t in s.prio && s.owner == Some(t) && s.hold == 1 && s.value == 0
    requires t in s.base && s.original == s.base[t]
    ensures var (s', out) := ReleaseStep(s, t);
            PassedOn(s, s', t, out) && s'.place == s.place && OthersWaitBut(s, s', t, s.queue)
  {
  }

  /** Every release by the owner succeeds and undoes one take; any other is refused and does nothing. */
  lemma ReleaseAnswers(s: State, t: Tid)
    requires Inv(s) && Enabled(s, Release(t))
    ensures var (s', out) := Step(s, Release(t));
            && s'.place == s.place && OthersWaitBut(s, s', t, if s.owner == Some(t) && s.hold == 1 then s.queue else [])
            && if s.owner != Some(t) then Declined(s, s', out, ERROR)
               else if s.hold > 1 then Unnested(s, s', t, out)
               else PassedOn(s, s', t, out)
  {
    hide Inv, WellFormed, ReleaseStep, Unnested, PassedOn, OthersWaitBut, NoDup;
    HolderFacts(s);
    PriorityKnown(s, t);
    if s.owner != Some(t) { ReleaseOther(s, t); }
    else if s.hold > 1 { ReleaseNested(s, t); }
    else { ReleaseLast(s, t); }
  }

  /** A woken thread returns what it was woken with: the mutex, which is its own by then, or its error. */
  lemma ContinueAnswers(s: State, t: Tid)
    requires Inv(s) && Enabled(s, Continue(t))
    ensures var (s', out) := Step(s, Continue(t));
            && OthersWait(s, s', t) && SameHolder(s, s') && s'.queue == s.queue && s'.prio == s.prio
            && s'.place == s.place[t := Outside] && s'.error == s.error
            && (out == Taken(t) <==> s.owner == Some(t))
            && (s.owner != Some(t) ==> s.error[t] != EOK && out == Refused(s.error[t]))
  {
    hide Inherits, NoInversion, NoDup;
    Pieces(s);
  }

  /** A timeout takes exactly `t` off the list and leaves its error; the owner keeps what it was lent. */
  lemma TimeoutAnswers(s: State, t: Tid)
    requires Inv(s) && Enabled(s, Timeout(t))
    ensures var (s', out) := Step(s, Timeout(t));
            && out == Quiet && OthersWait(s, s', t) && SameHolder(s, s') && s'.prio == s.prio && s'.place == s.place
            && (forall u :: u in s'.queue <==> u in s.queue && u != t)
            && s'.error[t] == ETIMEOUT && t !in s'.timers
  {
    hide Inherits, NoInversion, NoDup, Remove;
    Pieces(s);
    RemoveMembers(s.queue, t);
  }
}
