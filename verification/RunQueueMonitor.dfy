/**
 The critical sections of the run queue, as they change its fields under its lock.
 Each is one event of the machine in module RunQueue.
*/
module RunQueueMonitor {
  import opened Wrappers
  import opened RunStore
  import opened RunQueue

  datatype SubmitError = QueueFull | ShuttingDown | StoreError

  /** What cancel finds under the lock. */
  datatype Found = WasQueued | IsActiveRun | NotHere

  class Monitor {
    const config: Config
    var queue: seq<string>
    var active: set<string>
    var running: nat
    var reserved: nat
    var stopping: bool
    var trackers: map<string, Tracker>

    ghost var rest: Queue

    /** The fields, with what the other threads are at. */
    ghost function View(): Queue
      reads this
    {
      rest.(queue := queue, active := active, running := running, reserved := reserved,
            stopping := stopping, trackers := trackers)
    }

    ghost predicate Valid()
      reads this
    {
      QueueInv(config, View())
    }

    /** The first section of submit: holds a slot, unless stopping or full. */
    method Reserve() returns (refused: Option<SubmitError>)
      requires Valid()
      modifies this
      ensures refused ==
              if old(stopping) then Some(ShuttingDown)
              else if |old(queue)| + old(reserved) + old(running) == config.maxQueued + config.maxConcurrent
              then Some(QueueFull)
              else None
      ensures refused.None? ==> View() == Asked(old(View()))
      ensures refused.Some? ==> View() == old(View())
    {
      FullExactlyAtBound(config, View());
      if stopping {
        return Some(ShuttingDown);
      }
      var idleRunners := config.maxConcurrent - running;
      if |queue| + reserved >= config.maxQueued + idleRunners {
        return Some(QueueFull);
      }
      reserved := reserved + 1;
      rest := rest.(asking := rest.asking + 1);
      return None;
    }

    /** The second section of submit: lets go of the slot, and queues the run if it was
        stored and stop has not come between. */
    method FinishSubmit(id: string, stored: bool) returns (queued: bool)
      requires reserved > 0 && (!stored ==> View().failed > 0)
      modifies this
      ensures queued == (stored && !old(stopping))
      ensures !stored ==> View() == GivenUp(old(View()))
      ensures stored && !old(stopping) ==> View() == Enqueued(old(View()), id)
      ensures stored && old(stopping) ==> View() == Refused(old(View()), id)
    {
      ghost var after :=
        if !stored then GivenUp(View()) else if stopping then Refused(View(), id) else Enqueued(View(), id);
      reserved := reserved - 1;
      queued := stored && !stopping;
      if queued {
        active := active + {id};
        queue := queue + [id];
      }
      rest := after;
    }

    /** A runner takes the run at the front. */
    method TakeNext(ghost r: nat) returns (id: string)
      requires queue != [] && r < |View().runners|
      modifies this
      ensures id == old(queue)[0] && View() == PickedUp(old(View()), r)
    {
      ghost var after := PickedUp(View(), r);
      id := queue[0];
      queue := queue[1..];
      running := running + 1;
      rest := after;
    }

    /** A runner lets go of its run. */
    method LetGo(ghost r: nat, id: string)
      requires IsHeld(View(), r) && View().runners[r].id == id && running > 0
      modifies this
      ensures View() == Released(old(View()), r)
    {
      ghost var after := Released(View(), r);
      running := running - 1;
      active := active - {id};
      rest := after;
    }

    /** cancel's section: takes a queued run out, asks an active one to stop. */
    method CancelSection(id: string) returns (found: Found)
      requires Distinct(queue) && forall x :: x in active ==> x in trackers
      modifies this
      ensures found == if id in old(queue) then WasQueued else if id in old(active) then IsActiveRun else NotHere
      ensures found == WasQueued ==> View() == Dropped(old(View()), {id}, ByCancel)
      ensures found == IsActiveRun ==> View() == StopRequested(old(View()), {id})
      ensures found == NotHere ==> View() == old(View())
    {
      var i := FindQueued(id);
      if i < |queue| {
        ghost var after := Dropped(View(), {id}, ByCancel);
        EraseIsKept(queue, i);
        queue := queue[..i] + queue[i + 1..];
        active := active - {id};
        rest := after;
        return WasQueued;
      }
      if id in active {
        ghost var after := StopRequested(View(), {id});
        trackers := trackers[id := trackers[id].(stop := true)];
        rest := after;
        return IsActiveRun;
      }
      return NotHere;
    }

    method FindQueued(id: string) returns (i: nat)
      ensures i <= |queue| && (i < |queue| ==> queue[i] == id) && (i == |queue| ==> id !in queue)
    {
      i := 0;
      while i < |queue| && queue[i] != id
        invariant i <= |queue| && forall j :: 0 <= j < i ==> queue[j] != id
      {
        i := i + 1;
      }
    }

    /** stop's section: takes every queued run out, and asks every other active one to stop. */
    method StopSection() returns (cancelled: seq<string>)
      requires Valid() && !stopping
      modifies this
      ensures cancelled == old(queue) && View() == Stopped(old(View()))
    {
      ghost var after := Stopped(View());
      stopping := true;
      cancelled := queue;
      NoneKept(queue);
      queue := [];
      Deactivate(cancelled);
      RequestStops();
      rest := after;
    }

    method Deactivate(ids: seq<string>)
      modifies `active
      ensures active == old(active) - ElementsOf(ids)
    {
      var i := 0;
      while i < |ids|
        invariant i <= |ids| && active == old(active) - ElementsOf(ids[..i])
      {
        assert ElementsOf(ids[..i + 1]) == ElementsOf(ids[..i]) + {ids[i]};
        active := active - {ids[i]};
        i := i + 1;
      }
      assert ids[..i] == ids;
    }

    method RequestStops()
      requires forall id :: id in active ==> id in trackers
      modifies `trackers
      ensures trackers == map id | id in old(trackers) ::
                if id in active then old(trackers)[id].(stop := true) else old(trackers)[id]
    {
      var todo := active;
      while todo != {}
        invariant todo <= active && trackers.Keys == old(trackers).Keys
        invariant forall id :: id in trackers ==>
          trackers[id] == if id in active && id !in todo then old(trackers)[id].(stop := true) else old(trackers)[id]
        decreases |todo|
      {
        var id :| id in todo;
        todo := todo - {id};
        trackers := trackers[id := trackers[id].(stop := true)];
      }
    }
  }

  lemma NoneKept(s: seq<string>)
    ensures Kept(s, ElementsOf(s)) == []
  {
    if Kept(s, ElementsOf(s)) != [] {
      KeptHas(s, ElementsOf(s), Kept(s, ElementsOf(s))[0]);
    }
  }
}
