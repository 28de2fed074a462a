/** src/utils/workers/workerPool.js: a fixed set of worker slots and a FIFO
    task queue. Worker threads are not modelled; what a worker does is an
    event the environment delivers (`Complete`, `Fail`), and whether a
    Worker can be created is a parameter of each dispatch. Each method of
    the pool classes is tied to a transition on the pool's state as a value,
    and the properties are proved about those transitions. */
module WorkerPool {
  import opened Common
  import opened Config

  /** A queued task: its promise is named by `id`. */
  datatype Task<D> = Task(id: nat, data: D)

  /** `{ worker, busy }`; `task` is the id of the task whose Worker runs here. */
  datatype Slot = Slot(busy: bool, task: Option<nat>)

  /** A worker's `postMessage` payload `result`; `error` is its `error`
      field, and `payload` stands for the whole object, which resolves the
      task when `error` is absent or empty. */
  datatype Reply<M> = Reply(error: Option<string>, payload: M)

  /** How a task's promise settled. */
  datatype Outcome<M> = Resolved(value: M) | Rejected(error: string)

  /** Where a submitted task is. `Lost` tasks are off the queue and in no
      slot, so their promises never settle. */
  datatype Status = Queued | Running(slot: nat) | Settled | Lost

  /** `if (result.error)`: a present, non-empty error string rejects. */
  function OutcomeOf<M>(r: Reply<M>): (o: Outcome<M>)
    ensures o.Rejected? <==> r.error.Some? && r.error.value != ""
    ensures o.Rejected? ==> o.error == r.error.value
    ensures o.Resolved? ==> o.value == r.payload
  {
    if r.error.Some? && r.error.value != "" then Rejected(r.error.value) else Resolved(r.payload)
  }

  /** `workers.find(w => !w.busy)`: the lowest-indexed free slot. */
  function FirstFree(s: seq<Slot>): (r: Option<nat>)
    ensures r.Some? ==> r.value < |s| && !s[r.value].busy
    ensures r.Some? ==> forall j :: 0 <= j < r.value ==> s[j].busy
    ensures r.None? <==> forall j :: 0 <= j < |s| ==> s[j].busy
  {
    if s == [] then None
    else if !s[0].busy then Some(0)
    else match FirstFree(s[1..])
      case None => None
      case Some(i) => Some(i + 1)
  }

  /** The ids on a queue. */
  function Ids<D>(q: seq<Task<D>>): (ids: set<nat>)
    ensures forall i :: 0 <= i < |q| ==> q[i].id in ids
    ensures forall id :: id in ids ==> exists i :: 0 <= i < |q| && q[i].id == id
  {
    set i | 0 <= i < |q| :: q[i].id
  }

  /** A pool's fields as one value: the slots, the task queue, the ids
      handed out so far (each names one `runTask` promise), the promises
      that have settled with their outcome, and where every task is. */
  datatype PoolState<D, M> = PoolState(slots: seq<Slot>, queue: seq<Task<D>>, nextId: nat,
                                      settled: map<nat, Outcome<M>>, status: map<nat, Status>)

  /** Every submitted task (`id < n`) is in exactly one place: queued once,
      running in exactly the slot its status names, settled, or lost. */
  ghost predicate ValidState<D, M>(s: seq<Slot>, q: seq<Task<D>>, n: nat,
                                   settled: map<nat, Outcome<M>>, status: map<nat, Status>)
  {
    && |s| <= WORKER_COUNT
    && (forall id: nat :: id in status <==> id < n)
    && (forall id :: id in settled <==> id in status && status[id] == Settled)
    && (forall k :: 0 <= k < |s| ==> (s[k].busy <==> s[k].task.Some?))
    && (forall k :: 0 <= k < |s| && s[k].task.Some? ==>
          s[k].task.value in status && status[s[k].task.value] == Running(k))
    && (forall id :: id in status && status[id].Running? ==>
          status[id].slot < |s| && s[status[id].slot].task == Some(id))
    && (forall i :: 0 <= i < |q| ==> q[i].id in status && status[q[i].id] == Queued)
    && (forall id :: id in status && status[id] == Queued ==> id in Ids(q))
    && (forall i, j :: 0 <= i < j < |q| ==> q[i].id != q[j].id)
  }

  ghost predicate Inv<D, M>(st: PoolState<D, M>)
  {
    ValidState(st.slots, st.queue, st.nextId, st.settled, st.status)
  }

  // ---- the steps a pool takes ----

  /** `taskQueue.push(task)`: a new task with the next id joins the back. */
  function Submit<D, M>(st: PoolState<D, M>, data: D): PoolState<D, M>
  {
    st.(queue := st.queue + [Task(st.nextId, data)], nextId := st.nextId + 1,
        status := st.status[st.nextId := Queued])
  }

  /** The head of the queue is shifted off and its Worker starts in slot k. */
  function Start<D, M>(st: PoolState<D, M>, k: nat): PoolState<D, M>
    requires st.queue != [] && k < |st.slots|
  {
    var id := st.queue[0].id;
    st.(slots := st.slots[k := Slot(true, Some(id))], queue := st.queue[1..],
        status := st.status[id := Running(k)])
  }

  /** The head of the queue is shifted off with no slot to run in. */
  function Drop<D, M>(st: PoolState<D, M>): PoolState<D, M>
    requires st.queue != []
  {
    st.(queue := st.queue[1..], status := st.status[st.queue[0].id := Lost])
  }

  /** The head of the queue is shifted off and rejected: its Worker could
      not be created. */
  function RejectHead<D, M>(st: PoolState<D, M>, error: string): PoolState<D, M>
    requires st.queue != []
  {
    var id := st.queue[0].id;
    st.(queue := st.queue[1..], settled := st.settled[id := Rejected(error)],
        status := st.status[id := Settled])
  }

  /** The task running in slot k settles with `o` and the slot is freed
      (`cleanupWorker` before its dispatch). */
  function Finish<D, M>(st: PoolState<D, M>, k: nat, o: Outcome<M>): PoolState<D, M>
    requires k < |st.slots| && st.slots[k].task.Some?
  {
    var id := st.slots[k].task.value;
    st.(slots := st.slots[k := Slot(false, None)], settled := st.settled[id := o],
        status := st.status[id := Settled])
  }

  /** `processNextTask()` as written: the oldest task is shifted off the
      queue BEFORE the check for a free slot, so with no free slot it is
      discarded. A Worker that cannot be created rejects its task and frees
      the slot, which dispatches again. */
  function Dispatch<D, M>(st: PoolState<D, M>, spawnError: Option<string>): PoolState<D, M>
    decreases |st.queue|
  {
    if st.queue == [] then st
    else match FirstFree(st.slots)
      case None => Drop(st)
      case Some(k) =>
        if spawnError.None? then Start(st, k)
        else Dispatch(RejectHead(st, spawnError.value), spawnError)
  }

  /** `terminate()`: every Worker is stopped and the slot list emptied.
      Stopped workers post nothing, so their tasks never settle. */
  function Terminated<D, M>(st: PoolState<D, M>): PoolState<D, M>
  {
    st.(slots := [],
        status := map id | id in st.status :: if st.status[id].Running? then Lost else st.status[id])
  }

  // ---- each step keeps the invariant ----

  /** Ids of the tail: the head's id is no longer queued. */
  lemma QueueTail<D>(q: seq<Task<D>>)
    requires q != []
    requires forall i, j :: 0 <= i < j < |q| ==> q[i].id != q[j].id
    ensures Ids(q) == Ids(q[1..]) + {q[0].id}
    ensures q[0].id !in Ids(q[1..])
  {
    forall id | id in Ids(q) ensures id in Ids(q[1..]) + {q[0].id} {
      var i :| 0 <= i < |q| && q[i].id == id;
      if i > 0 { assert q[1..][i - 1].id == id; }
    }
  }

  lemma SubmitKeeps<D, M>(st: PoolState<D, M>, d: D)
    requires Inv(st)
    ensures Inv(Submit(st, d))
  {
    SubmitValid(st.slots, st.queue, st.nextId, st.settled, st.status, d);
  }

  lemma DropKeeps<D, M>(st: PoolState<D, M>)
    requires Inv(st) && st.queue != []
    ensures Inv(Drop(st))
  {
    DropValid(st.slots, st.queue, st.nextId, st.settled, st.status);
  }

  lemma StartKeeps<D, M>(st: PoolState<D, M>, k: nat)
    requires Inv(st) && st.queue != [] && k < |st.slots| && !st.slots[k].busy
    ensures Inv(Start(st, k))
  {
    StartValid(st.slots, st.queue, st.nextId, st.settled, st.status, k);
  }

  /** A rejected head had not settled before. */
  lemma RejectHeadKeeps<D, M>(st: PoolState<D, M>, error: string)
    requires Inv(st) && st.queue != []
    ensures Inv(RejectHead(st, error))
    ensures st.queue[0].id !in st.settled
  {
    RejectHeadValid(st.slots, st.queue, st.nextId, st.settled, st.status, Rejected(error));
  }

  /** The task in a busy slot settles exactly once. */
  lemma FinishKeeps<D, M>(st: PoolState<D, M>, k: nat, o: Outcome<M>)
    requires Inv(st) && k < |st.slots| && st.slots[k].busy
    ensures st.slots[k].task.Some? && st.slots[k].task.value !in st.settled && Inv(Finish(st, k, o))
  {
    FinishValid(st.slots, st.queue, st.nextId, st.settled, st.status, k, o);
  }

  lemma SubmitValid<D, M>(s: seq<Slot>, q: seq<Task<D>>, n: nat,
                          settled: map<nat, Outcome<M>>, status: map<nat, Status>, d: D)
    requires ValidState(s, q, n, settled, status)
    ensures ValidState(s, q + [Task(n, d)], n + 1, settled, status[n := Queued])
  {
    var q' := q + [Task(n, d)];
    forall id | id in status[n := Queued] && status[n := Queued][id] == Queued
      ensures id in Ids(q')
    {
      if id != n { assert id in Ids(q); var i :| 0 <= i < |q| && q[i].id == id; assert q'[i].id == id; }
      else { assert q'[|q|].id == n; }
    }
  }

  lemma DropValid<D, M>(s: seq<Slot>, q: seq<Task<D>>, n: nat,
                        settled: map<nat, Outcome<M>>, status: map<nat, Status>)
    requires ValidState(s, q, n, settled, status) && q != []
    ensures ValidState(s, q[1..], n, settled, status[q[0].id := Lost])
  {
    QueueTail(q);
  }

  lemma StartValid<D, M>(s: seq<Slot>, q: seq<Task<D>>, n: nat,
                         settled: map<nat, Outcome<M>>, status: map<nat, Status>, k: nat)
    requires ValidState(s, q, n, settled, status) && q != [] && k < |s| && !s[k].busy
    ensures ValidState(s[k := Slot(true, Some(q[0].id))], q[1..], n, settled, status[q[0].id := Running(k)])
  {
    QueueTail(q);
  }

  lemma RejectHeadValid<D, M>(s: seq<Slot>, q: seq<Task<D>>, n: nat,
                              settled: map<nat, Outcome<M>>, status: map<nat, Status>, o: Outcome<M>)
    requires ValidState(s, q, n, settled, status) && q != []
    ensures ValidState(s, q[1..], n, settled[q[0].id := o], status[q[0].id := Settled])
    ensures q[0].id !in settled
  {
    QueueTail(q);
  }

  lemma FinishValid<D, M>(s: seq<Slot>, q: seq<Task<D>>, n: nat,
                          settled: map<nat, Outcome<M>>, status: map<nat, Status>, k: nat, o: Outcome<M>)
    requires ValidState(s, q, n, settled, status) && k < |s| && s[k].busy
    ensures s[k].task.Some? && s[k].task.value !in settled
    ensures ValidState(s[k := Slot(false, None)], q, n, settled[s[k].task.value := o], status[s[k].task.value := Settled])
  {
  }

  lemma TerminateKeeps<D, M>(st: PoolState<D, M>)
    requires Inv(st)
    ensures Inv(Terminated(st))
  {
  }

  // ---- the pool as written ----

  /** A dispatch with at most one waiting task empties the queue and keeps
      the invariant. */
  lemma {:induction false} DispatchKeeps<D, M>(st: PoolState<D, M>, spawnError: Option<string>)
    requires Inv(st) && |st.queue| <= 1
    ensures var r := Dispatch(st, spawnError);
      Inv(r) && r.queue == [] && |r.slots| == |st.slots| && r.nextId == st.nextId
    decreases |st.queue|
  {
    if st.queue != [] {
      match FirstFree(st.slots)
      case None => DropKeeps(st);
      case Some(k) =>
        if spawnError.None? {
          StartKeeps(st, k);
        } else {
          RejectHeadKeeps(st, spawnError.value);
          DispatchKeeps(RejectHead(st, spawnError.value), spawnError);
        }
    }
  }

  /** `runTask(data)` on a pool with an empty queue (as every dispatch
      leaves it): with every slot busy the new task is lost; with a free
      slot it starts in the lowest one, or is rejected if its Worker cannot
      be created. */
  lemma RunTaskOutcome<D, M>(st: PoolState<D, M>, d: D, spawnError: Option<string>)
    requires Inv(st) && st.queue == []
    ensures var id := st.nextId;
      var r := Dispatch(Submit(st, d), spawnError);
      && Inv(r) && r.queue == [] && r.nextId == id + 1
      && (FirstFree(st.slots).None? ==>
            r.slots == st.slots && r.settled == st.settled && r.status == st.status[id := Lost])
      && (FirstFree(st.slots).Some? && spawnError.None? ==>
            var k := FirstFree(st.slots).value;
            && r.slots == st.slots[k := Slot(true, Some(id))] && r.settled == st.settled
            && r.status == st.status[id := Running(k)])
      && (FirstFree(st.slots).Some? && spawnError.Some? ==>
            && r.slots == st.slots && r.settled == st.settled[id := Rejected(spawnError.value)]
            && r.status == st.status[id := Settled])
  {
    assert Inv(Dispatch(Submit(st, d), spawnError)) by {
      SubmitKeeps(st, d);
      DispatchKeeps(Submit(st, d), spawnError);
    }
    RunTaskCases(st, d, spawnError);
  }

  /** The three outcomes of a dispatch of one freshly queued task. */
  lemma RunTaskCases<D, M>(st: PoolState<D, M>, d: D, spawnError: Option<string>)
    requires st.queue == []
    ensures var id := st.nextId;
      var r := Dispatch(Submit(st, d), spawnError);
      && r.queue == [] && r.nextId == id + 1
      && (FirstFree(st.slots).None? ==>
            r.slots == st.slots && r.settled == st.settled && r.status == st.status[id := Lost])
      && (FirstFree(st.slots).Some? && spawnError.None? ==>
            var k := FirstFree(st.slots).value;
            && r.slots == st.slots[k := Slot(true, Some(id))] && r.settled == st.settled
            && r.status == st.status[id := Running(k)])
      && (FirstFree(st.slots).Some? && spawnError.Some? ==>
            && r.slots == st.slots && r.settled == st.settled[id := Rejected(spawnError.value)]
            && r.status == st.status[id := Settled])
  {
    var id := st.nextId;
    var s1 := Submit(st, d);
    assert s1.queue == [Task(id, d)] && s1.queue[1..] == [];
    match FirstFree(st.slots)
    case None =>
      assert Dispatch(s1, spawnError) == Drop(s1);
      Overwrite(st.status, id, Queued, Lost);
    case Some(k) =>
      if spawnError.None? {
        assert Dispatch(s1, spawnError) == Start(s1, k);
        Overwrite(st.status, id, Queued, Running(k));
      } else {
        var s2 := RejectHead(s1, spawnError.value);
        assert Dispatch(s1, spawnError) == Dispatch(s2, spawnError) == s2;
        Overwrite(st.status, id, Queued, Settled);
      }
  }

  /** A second update of the same key hides the first. */
  lemma Overwrite<K, V>(m: map<K, V>, k: K, a: V, b: V)
    ensures m[k := a][k := b] == m[k := b]
  {
  }

  /** A task with status Lost. */
  ghost predicate IsLost<D, M>(st: PoolState<D, M>, id: nat)
  {
    id in st.status && st.status[id] == Lost && id !in st.settled
  }

  lemma {:induction false} LostThroughDispatch<D, M>(st: PoolState<D, M>, spawnError: Option<string>, id: nat)
    requires Inv(st) && IsLost(st, id)
    ensures IsLost(Dispatch(st, spawnError), id)
    decreases |st.queue|
  {
    if st.queue != [] {
      assert st.queue[0].id != id;
      match FirstFree(st.slots)
      case None =>
      case Some(k) =>
        if spawnError.Some? {
          RejectHeadKeeps(st, spawnError.value);
          LostThroughDispatch(RejectHead(st, spawnError.value), spawnError, id);
        }
    }
  }

  /** A lost task stays lost, and its promise never settles, whatever the
      pool does next: a submission, a dispatch, a worker's reply or error,
      or termination. */
  lemma LostForever<D, M>(st: PoolState<D, M>, id: nat, d: D, spawnError: Option<string>, k: nat, o: Outcome<M>)
    requires Inv(st) && IsLost(st, id)
    ensures IsLost(Submit(st, d), id)
    ensures IsLost(Dispatch(st, spawnError), id)
    ensures k < |st.slots| && st.slots[k].busy ==> IsLost(Finish(st, k, o), id)
    ensures IsLost(Terminated(st), id)
  {
    LostThroughDispatch(st, spawnError, id);
    if k < |st.slots| && st.slots[k].busy {
      assert st.slots[k].task.value != id;
    }
  }

  /** After `terminate()` there is no slot at all, so every later
      `runTask` loses its task. */
  lemma TerminatedLoses<D, M>(st: PoolState<D, M>, d: D, spawnError: Option<string>)
    requires Inv(st) && st.queue == []
    ensures var r := Dispatch(Submit(Terminated(st), d), spawnError);
      r.slots == [] && r.queue == [] && IsLost(r, st.nextId)
  {
    TerminateKeeps(st);
    RunTaskOutcome(Terminated(st), d, spawnError);
  }

  class Pool<D, M> {
    var slots: array<Slot>
    var queue: seq<Task<D>>
    /** Ids handed out so far; the model's name for each `runTask` promise. */
    var nextId: nat
    /** The promises that have settled, with their outcome. */
    var settled: map<nat, Outcome<M>>
    /** Where every submitted task is. */
    ghost var status: map<nat, Status>

    ghost function State(): PoolState<D, M>
      reads this, slots
    {
      PoolState(slots[..], queue, nextId, settled, status)
    }

    ghost predicate Valid()
      reads this, slots
    {
      Inv(State())
    }

    /** `constructor()` followed by `initialize()`: WORKER_COUNT free slots. */
    constructor()
      ensures Valid() && queue == [] && settled == map[] && nextId == 0 && status == map[]
      ensures slots.Length == WORKER_COUNT
      ensures forall k :: 0 <= k < slots.Length ==> slots[k] == Slot(false, None)
      ensures fresh(slots)
    {
      slots := new Slot[WORKER_COUNT](_ => Slot(false, None));
      queue := [];
      nextId := 0;
      settled := map[];
      status := map[];
    }

    /** `processNextTask()` as written. The queue never holds more than
        the one task `runTask` has just pushed. */
    method ProcessNextTask(spawnError: Option<string>)
      requires Valid() && |queue| <= 1
      modifies this, slots
      ensures Valid() && queue == [] && slots == old(slots)
      ensures State() == Dispatch(old(State()), spawnError)
      decreases |queue|
    {
      ghost var st0 := State();
      var free := FirstFree(slots[..]);
      if queue != [] {
        var t := queue[0];
        if free.None? {
          queue := queue[1..];
          status := status[t.id := Lost];
          assert State() == Drop(st0);
        } else if spawnError.None? {
          var k := free.value;
          queue := queue[1..];
          slots[k] := Slot(true, Some(t.id));
          status := status[t.id := Running(k)];
          assert State() == Start(st0, k) by {
            assert slots[..] == st0.slots[k := Slot(true, Some(t.id))];
          }
        } else {
          // the catch block: reject, then cleanupWorker, which dispatches again
          assert Inv(RejectHead(st0, spawnError.value)) by {
            RejectHeadKeeps(st0, spawnError.value);
          }
          queue := queue[1..];
          settled := settled[t.id := Rejected(spawnError.value)];
          status := status[t.id := Settled];
          assert State() == RejectHead(st0, spawnError.value);
          ProcessNextTask(spawnError);
        }
      }
      DispatchKeeps(st0, spawnError);
    }

    /** `runTask(data)`: queue the task and dispatch; returns its promise's id. */
    method RunTask(data: D, spawnError: Option<string>) returns (id: nat)
      requires Valid() && queue == []
      modifies this, slots
      ensures Valid() && queue == [] && slots == old(slots)
      ensures id == old(nextId)
      ensures State() == Dispatch(Submit(old(State()), data), spawnError)
    {
      id := nextId;
      ghost var st0 := State();
      SubmitKeeps(st0, data);
      nextId := nextId + 1;
      queue := [Task(id, data)];
      status := status[id := Queued];
      assert State() == Submit(st0, data) by {
        assert st0.queue + [Task(id, data)] == [Task(id, data)];
      }
      ProcessNextTask(spawnError);
    }

    /** The worker in slot k posted `reply`: settle its task, free the slot;
        the dispatch that follows finds the queue empty. */
    method Complete(k: nat, reply: Reply<M>)
      requires Valid() && queue == [] && k < slots.Length && slots[k].busy
      modifies this, slots
      ensures Valid() && queue == [] && slots == old(slots)
      ensures State() == Finish(old(State()), k, OutcomeOf(reply))
    {
      FinishKeeps(State(), k, OutcomeOf(reply));
      ghost var s0 := slots[..];
      var id := slots[k].task.value;
      settled := settled[id := OutcomeOf(reply)];
      status := status[id := Settled];
      slots[k] := Slot(false, None);
      assert slots[..] == s0[k := Slot(false, None)];
      ProcessNextTask(None);
    }

    /** The worker in slot k emitted 'error': reject its task, free the slot. */
    method Fail(k: nat, error: string)
      requires Valid() && queue == [] && k < slots.Length && slots[k].busy
      modifies this, slots
      ensures Valid() && queue == [] && slots == old(slots)
      ensures State() == Finish(old(State()), k, Rejected(error))
    {
      FinishKeeps(State(), k, Rejected(error));
      ghost var s0 := slots[..];
      var id := slots[k].task.value;
      settled := settled[id := Rejected(error)];
      status := status[id := Settled];
      slots[k] := Slot(false, None);
      assert slots[..] == s0[k := Slot(false, None)];
      ProcessNextTask(None);
    }

    /** `terminate()` */
    method Terminate()
      requires Valid() && queue == []
      modifies this
      ensures Valid() && queue == [] && fresh(slots)
      ensures State() == Terminated(old(State()))
    {
      TerminateKeeps(State());
      status := map id | id in status :: if status[id].Running? then Lost else status[id];
      slots := new Slot[0];
    }
  }

  /** The slots after `i` back-to-back submissions to a fresh pool. */
  function Saturated(i: nat): (s: seq<Slot>)
    ensures |s| == WORKER_COUNT
  {
    seq(WORKER_COUNT, (k: nat) => if k < i then Slot(true, Some(k)) else Slot(false, None))
  }

  /** Task statuses after `i` back-to-back submissions: the first
      WORKER_COUNT run in the slot of their own number, the rest are lost. */
  ghost function SaturatedStatus(i: nat): map<nat, Status>
  {
    map j: nat | j < i :: if j < WORKER_COUNT then Running(j) else Lost
  }

  /** A fresh pool after `i` back-to-back submissions. */
  ghost function SaturatedState<D, M>(i: nat): PoolState<D, M>
  {
    PoolState(Saturated(i), [], i, map[], SaturatedStatus(i))
  }

  lemma SaturatedStep(i: nat)
    ensures i < WORKER_COUNT ==> FirstFree(Saturated(i)) == Some(i)
    ensures i < WORKER_COUNT ==> Saturated(i)[i := Slot(true, Some(i))] == Saturated(i + 1)
    ensures i < WORKER_COUNT ==> SaturatedStatus(i)[i := Running(i)] == SaturatedStatus(i + 1)
    ensures i >= WORKER_COUNT ==> FirstFree(Saturated(i)).None?
    ensures i >= WORKER_COUNT ==> Saturated(i) == Saturated(i + 1)
    ensures i >= WORKER_COUNT ==> SaturatedStatus(i)[i := Lost] == SaturatedStatus(i + 1)
  {
    if i < WORKER_COUNT {
      var f := FirstFree(Saturated(i));
      assert !Saturated(i)[i].busy;
    }
  }

  /** One more submission to a pool in that state: the task starts while
      a slot is free, and is lost after. */
  lemma SubmitStep<D, M>(d: D, i: nat)
    ensures Dispatch(Submit(SaturatedState<D, M>(i), d), None) == SaturatedState<D, M>(i + 1)
  {
    SaturatedStep(i);
    var s1 := Submit(SaturatedState<D, M>(i), d);
    assert s1.queue == [Task(i, d)] && s1.queue[1..] == [];
    assert SaturatedStatus(i)[i := Queued][i := Lost] == SaturatedStatus(i)[i := Lost];
    assert SaturatedStatus(i)[i := Queued][i := Running(i)] == SaturatedStatus(i)[i := Running(i)];
  }

  /** After `n` back-to-back submissions the first WORKER_COUNT tasks run in
      the slot of their own number and every later one is lost; the queue
      is empty and nothing has settled. */
  lemma SaturatedLoses<D, M>(n: nat)
    ensures var st := SaturatedState<D, M>(n);
      && st.queue == [] && st.settled == map[]
      && (forall i :: 0 <= i < n ==> i in st.status)
      && (forall i :: 0 <= i < n && i < WORKER_COUNT ==> st.status[i] == Running(i))
      && (forall i :: WORKER_COUNT <= i < n ==> st.status[i] == Lost)
  {
  }

  /** The next submission of the loop below. */
  method SubmitNext<D, M>(p: Pool<D, M>, data: seq<D>, i: nat) returns (id: nat)
    requires i < |data| && p.Valid() && p.State() == SaturatedState<D, M>(i)
    modifies p, p.slots
    ensures p.Valid() && p.slots == old(p.slots) && p.State() == SaturatedState<D, M>(i + 1)
    ensures id == i
  {
    SubmitStep<D, M>(data[i], i);
    id := p.RunTask(data[i], None);
  }

  /** `n` tasks submitted back to back to a fresh pool, as a synchronous loop
      of `runTask` calls does: the first WORKER_COUNT start, every later one
      is lost. */
  method SubmitAll<D, M>(data: seq<D>) returns (p: Pool<D, M>, ids: seq<nat>)
    ensures p.Valid() && p.State() == SaturatedState<D, M>(|data|)
    ensures |ids| == |data| && forall i :: 0 <= i < |ids| ==> ids[i] == i
  {
    p := new Pool<D, M>();
    ids := [];
    assert p.slots[..] == Saturated(0);
    assert p.State() == SaturatedState<D, M>(0);
    var i := 0;
    while i < |data|
      invariant 0 <= i <= |data| && |ids| == i && forall j :: 0 <= j < i ==> ids[j] == j
      invariant p.Valid() && fresh(p.slots) && p.State() == SaturatedState<D, M>(i)
    {
      var id := SubmitNext(p, data, i);
      ids := ids + [id];
      i := i + 1;
    }
  }

  // ---- the dispatch as evidently intended: check for a free slot first ----

  /** No submitted task is lost. */
  ghost predicate NoneLost(status: map<nat, Status>)
  {
    forall id :: id in status ==> status[id] != Lost
  }

  /** A task waits only while every slot is busy. */
  predicate Waiting<D>(s: seq<Slot>, q: seq<Task<D>>)
  {
    q != [] ==> FirstFree(s).None?
  }

  /** At most one task waits, or at most one slot is free: one dispatch
      then restores Waiting. */
  predicate OneGap<D>(s: seq<Slot>, q: seq<Task<D>>)
  {
    |q| <= 1 || forall i, j :: 0 <= i < j < |s| ==> s[i].busy || s[j].busy
  }

  /** The invariant of the corrected pool. */
  ghost predicate CheckedInv<D, M>(st: PoolState<D, M>)
  {
    Inv(st) && Waiting(st.slots, st.queue) && NoneLost(st.status)
  }

  /** `processNextTask()` with the free-slot check first: with no free slot
      the queue is left alone. */
  function DispatchChecked<D, M>(st: PoolState<D, M>, spawnError: Option<string>): PoolState<D, M>
    decreases |st.queue|
  {
    if st.queue == [] then st
    else match FirstFree(st.slots)
      case None => st
      case Some(k) =>
        if spawnError.None? then Start(st, k)
        else DispatchChecked(RejectHead(st, spawnError.value), spawnError)
  }

  lemma FillGap<D>(s: seq<Slot>, q: seq<Task<D>>, k: nat, x: Slot)
    requires OneGap(s, q) && q != [] && FirstFree(s) == Some(k) && x.busy
    ensures Waiting(s[k := x], q[1..])
  {
    if |q| > 1 {
      var s' := s[k := x];
      forall j | 0 <= j < |s'| ensures s'[j].busy {
        if j < k { } else if j > k { assert s[k].busy || s[j].busy; }
      }
    }
  }

  lemma NoneLostUpdate(status: map<nat, Status>, id: nat, st: Status)
    requires NoneLost(status) && st != Lost
    ensures NoneLost(status[id := st])
  {
  }

  /** A task joins the queue: if a slot is free the queue was empty. */
  lemma SubmitGap<D>(s: seq<Slot>, q: seq<Task<D>>, t: Task<D>)
    requires Waiting(s, q)
    ensures OneGap(s, q + [t])
    ensures FirstFree(s).Some? ==> q + [t] == [t]
  {
    if FirstFree(s).None? {
      forall i, j | 0 <= i < j < |s| ensures s[i].busy || s[j].busy {
        assert s[i].busy;
      }
    }
  }

  /** Freeing one slot while tasks wait leaves exactly that slot free. */
  lemma ReopenSlot<D>(s: seq<Slot>, q: seq<Task<D>>, k: nat)
    requires Waiting(s, q) && k < |s|
    ensures OneGap(s[k := Slot(false, None)], q)
    ensures q != [] ==> FirstFree(s[k := Slot(false, None)]) == Some(k)
  {
    var s' := s[k := Slot(false, None)];
    if q != [] {
      forall i, j | 0 <= i < j < |s'| ensures s'[i].busy || s'[j].busy {
        assert s[i].busy && s[j].busy;
      }
      var f := FirstFree(s');
      assert !s'[k].busy;
      assert f.Some?;
    }
  }

  /** A dispatch restores the corrected invariant, and no settled promise
      changes. */
  lemma {:induction false} CheckedDispatchKeeps<D, M>(st: PoolState<D, M>, spawnError: Option<string>)
    requires Inv(st) && NoneLost(st.status) && OneGap(st.slots, st.queue)
    ensures var r := DispatchChecked(st, spawnError);
      && CheckedInv(r) && |r.slots| == |st.slots| && r.nextId == st.nextId
      && (forall id :: id in st.settled ==> id in r.settled && r.settled[id] == st.settled[id])
    decreases |st.queue|
  {
    if st.queue != [] {
      match FirstFree(st.slots)
      case None =>
      case Some(k) =>
        if spawnError.None? {
          StartChecked(st, k);
        } else {
          RejectChecked(st, spawnError.value);
          CheckedDispatchKeeps(RejectHead(st, spawnError.value), spawnError);
        }
    }
  }

  /** The head of the queue starts in the lowest free slot k of a CheckedPool. */
  lemma StartChecked<D, M>(st: PoolState<D, M>, k: nat)
    requires Inv(st) && NoneLost(st.status) && OneGap(st.slots, st.queue)
    requires st.queue != [] && FirstFree(st.slots) == Some(k)
    ensures CheckedInv(Start(st, k))
  {
    StartKeeps(st, k);
    FillGap(st.slots, st.queue, k, Slot(true, Some(st.queue[0].id)));
    NoneLostUpdate(st.status, st.queue[0].id, Running(k));
  }

  /** The head of the queue of a CheckedPool is rejected without a slot. */
  lemma RejectChecked<D, M>(st: PoolState<D, M>, error: string)
    requires Inv(st) && NoneLost(st.status) && OneGap(st.slots, st.queue) && st.queue != []
    ensures var r := RejectHead(st, error);
      Inv(r) && NoneLost(r.status) && OneGap(r.slots, r.queue)
    ensures st.queue[0].id !in st.settled
  {
    RejectHeadKeeps(st, error);
    NoneLostUpdate(st.status, st.queue[0].id, Settled);
  }

  /** The state a CheckedPool dispatches from after a submission. */
  lemma SubmitChecked<D, M>(st: PoolState<D, M>, d: D)
    requires CheckedInv(st)
    ensures var s1 := Submit(st, d);
      Inv(s1) && NoneLost(s1.status) && OneGap(s1.slots, s1.queue)
    ensures FirstFree(st.slots).Some? ==> st.queue == []
  {
    SubmitKeeps(st, d);
    NoneLostUpdate(st.status, st.nextId, Queued);
    SubmitGap(st.slots, st.queue, Task(st.nextId, d));
  }

  /** `runTask(data)` on the corrected pool: with every slot busy the task
      waits at the back of the queue; otherwise it starts in the lowest free
      slot, or is rejected if its Worker cannot be created. */
  lemma CheckedRunOutcome<D, M>(st: PoolState<D, M>, d: D, spawnError: Option<string>)
    requires CheckedInv(st)
    ensures var id := st.nextId;
      var r := DispatchChecked(Submit(st, d), spawnError);
      && CheckedInv(r) && r.nextId == id + 1 && |r.slots| == |st.slots|
      && (forall i :: i in st.settled ==> i in r.settled && r.settled[i] == st.settled[i])
      && (FirstFree(st.slots).None? ==> r == Submit(st, d))
      && (FirstFree(st.slots).Some? && spawnError.None? ==>
            var k := FirstFree(st.slots).value;
            && r.queue == [] && r.slots == st.slots[k := Slot(true, Some(id))]
            && r.settled == st.settled && r.status == st.status[id := Running(k)])
      && (FirstFree(st.slots).Some? && spawnError.Some? ==>
            r.queue == [] && id in r.settled && r.settled[id] == Rejected(spawnError.value))
  {
    var r := DispatchChecked(Submit(st, d), spawnError);
    assert CheckedInv(r) && (forall i :: i in st.settled ==> i in r.settled && r.settled[i] == st.settled[i]) by {
      SubmitChecked(st, d);
      CheckedDispatchKeeps(Submit(st, d), spawnError);
    }
    CheckedRunCases(st, d, spawnError);
  }

  /** The outcomes of a dispatch right after a submission. */
  lemma CheckedRunCases<D, M>(st: PoolState<D, M>, d: D, spawnError: Option<string>)
    requires Waiting(st.slots, st.queue)
    ensures var id := st.nextId;
      var r := DispatchChecked(Submit(st, d), spawnError);
      && r.nextId == id + 1 && |r.slots| == |st.slots|
      && (FirstFree(st.slots).None? ==> r == Submit(st, d))
      && (FirstFree(st.slots).Some? && spawnError.None? ==>
            var k := FirstFree(st.slots).value;
            && r.queue == [] && r.slots == st.slots[k := Slot(true, Some(id))]
            && r.settled == st.settled && r.status == st.status[id := Running(k)])
      && (FirstFree(st.slots).Some? && spawnError.Some? ==>
            r.queue == [] && id in r.settled && r.settled[id] == Rejected(spawnError.value))
  {
    var id := st.nextId;
    var s1 := Submit(st, d);
    match FirstFree(st.slots)
    case None =>
    case Some(k) =>
      assert s1.queue == [Task(id, d)] && s1.queue[1..] == [];
      if spawnError.None? {
        assert DispatchChecked(s1, spawnError) == Start(s1, k);
        Overwrite(st.status, id, Queued, Running(k));
      } else {
        var s2 := RejectHead(s1, spawnError.value);
        assert DispatchChecked(s1, spawnError) == DispatchChecked(s2, spawnError) == s2;
      }
  }

  /** The state a CheckedPool dispatches from after a task settles. */
  lemma FinishChecked<D, M>(st: PoolState<D, M>, k: nat, o: Outcome<M>)
    requires CheckedInv(st) && k < |st.slots| && st.slots[k].busy
    ensures st.slots[k].task.Some? && st.slots[k].task.value !in st.settled
    ensures var s1 := Finish(st, k, o);
      && Inv(s1) && NoneLost(s1.status) && OneGap(s1.slots, s1.queue)
      && (st.queue != [] ==> FirstFree(s1.slots) == Some(k))
  {
    FinishKeeps(st, k, o);
    NoneLostUpdate(st.status, st.slots[k].task.value, Settled);
    ReopenSlot(st.slots, st.queue, k);
  }

  /** A worker's reply or error on the corrected pool: its task settles
      with that outcome, and the freed slot takes the oldest waiting task. */
  lemma CheckedFinishOutcome<D, M>(st: PoolState<D, M>, k: nat, o: Outcome<M>, spawnError: Option<string>)
    requires CheckedInv(st) && k < |st.slots| && st.slots[k].busy
    ensures st.slots[k].task.Some? && st.slots[k].task.value !in st.settled
    ensures var id := st.slots[k].task.value;
      var r := DispatchChecked(Finish(st, k, o), spawnError);
      && CheckedInv(r) && |r.slots| == |st.slots| && r.nextId == st.nextId
      && id in r.settled && r.settled[id] == o
      && (st.queue == [] ==> r == Finish(st, k, o))
      && (st.queue != [] && spawnError.None? ==>
            && r.queue == st.queue[1..]
            && r.slots == st.slots[k := Slot(true, Some(st.queue[0].id))]
            && r.status[st.queue[0].id] == Running(k))
  {
    var id := st.slots[k].task.value;
    var r := DispatchChecked(Finish(st, k, o), spawnError);
    FinishChecked(st, k, o);
    assert CheckedInv(r) && |r.slots| == |st.slots| && r.nextId == st.nextId && id in r.settled && r.settled[id] == o by {
      CheckedDispatchKeeps(Finish(st, k, o), spawnError);
    }
    CheckedFinishCases(st, k, o, spawnError);
  }

  /** What the dispatch after a settled task does with the freed slot. */
  lemma CheckedFinishCases<D, M>(st: PoolState<D, M>, k: nat, o: Outcome<M>, spawnError: Option<string>)
    requires k < |st.slots| && st.slots[k].task.Some?
    requires st.queue != [] ==> FirstFree(Finish(st, k, o).slots) == Some(k)
    ensures var r := DispatchChecked(Finish(st, k, o), spawnError);
      && (st.queue == [] ==> r == Finish(st, k, o))
      && (st.queue != [] && spawnError.None? ==>
            && r.queue == st.queue[1..]
            && r.slots == st.slots[k := Slot(true, Some(st.queue[0].id))]
            && r.status[st.queue[0].id] == Running(k))
  {
    if st.queue != [] && spawnError.None? {
      var s1 := Finish(st, k, o);
      assert DispatchChecked(s1, spawnError) == Start(s1, k);
      assert st.slots[k := Slot(false, None)][k := Slot(true, Some(st.queue[0].id))]
          == st.slots[k := Slot(true, Some(st.queue[0].id))];
    }
  }

  /** Like Pool, but `processNextTask` leaves the task on the queue when no
      slot is free, and a freed slot takes the oldest waiting task. */
  class CheckedPool<D, M> {
    var slots: array<Slot>
    var queue: seq<Task<D>>
    var nextId: nat
    var settled: map<nat, Outcome<M>>
    ghost var status: map<nat, Status>

    ghost function State(): PoolState<D, M>
      reads this, slots
    {
      PoolState(slots[..], queue, nextId, settled, status)
    }

    ghost predicate Valid()
      reads this, slots
    {
      CheckedInv(State())
    }

    constructor()
      ensures Valid() && queue == [] && settled == map[] && nextId == 0 && status == map[]
      ensures slots.Length == WORKER_COUNT
      ensures forall k :: 0 <= k < slots.Length ==> slots[k] == Slot(false, None)
      ensures fresh(slots)
    {
      slots := new Slot[WORKER_COUNT](_ => Slot(false, None));
      queue := [];
      nextId := 0;
      settled := map[];
      status := map[];
    }

    /** Start the oldest task in the lowest free slot, if both exist. */
    method ProcessNextTask(spawnError: Option<string>)
      requires Inv(State()) && NoneLost(status) && OneGap(slots[..], queue)
      modifies this, slots
      ensures Valid() && slots == old(slots)
      ensures State() == DispatchChecked(old(State()), spawnError)
      decreases |queue|
    {
      ghost var st0 := State();
      var free := FirstFree(slots[..]);
      if queue != [] && free.Some? {
        var t := queue[0];
        var k := free.value;
        if spawnError.None? {
          queue := queue[1..];
          slots[k] := Slot(true, Some(t.id));
          status := status[t.id := Running(k)];
          assert State() == Start(st0, k) by {
            assert slots[..] == st0.slots[k := Slot(true, Some(t.id))];
          }
        } else {
          ghost var mid := RejectHead(st0, spawnError.value);
          assert Inv(mid) && NoneLost(mid.status) && OneGap(mid.slots, mid.queue) by {
            RejectChecked(st0, spawnError.value);
          }
          queue := queue[1..];
          settled := settled[t.id := Rejected(spawnError.value)];
          status := status[t.id := Settled];
          assert State() == mid;
          ProcessNextTask(spawnError);
        }
      }
      CheckedDispatchKeeps(st0, spawnError);
    }

    /** `runTask(data)`: the task starts at once in the lowest free slot,
        or waits at the back of the queue. */
    method RunTask(data: D, spawnError: Option<string>) returns (id: nat)
      requires Valid()
      modifies this, slots
      ensures Valid() && slots == old(slots)
      ensures id == old(nextId)
      ensures State() == DispatchChecked(Submit(old(State()), data), spawnError)
    {
      id := nextId;
      ghost var st0 := State();
      SubmitChecked(st0, data);
      nextId := nextId + 1;
      queue := queue + [Task(id, data)];
      status := status[id := Queued];
      assert State() == Submit(st0, data);
      ProcessNextTask(spawnError);
    }

    /** The worker in slot k posted `reply`: settle its task, free the slot,
        and start the oldest waiting task there. */
    method Complete(k: nat, reply: Reply<M>, spawnError: Option<string>)
      requires Valid() && k < slots.Length && slots[k].busy
      modifies this, slots
      ensures Valid() && slots == old(slots)
      ensures State() == DispatchChecked(Finish(old(State()), k, OutcomeOf(reply)), spawnError)
    {
      FinishChecked(State(), k, OutcomeOf(reply));
      ghost var s0 := slots[..];
      var id := slots[k].task.value;
      settled := settled[id := OutcomeOf(reply)];
      status := status[id := Settled];
      slots[k] := Slot(false, None);
      assert slots[..] == s0[k := Slot(false, None)];
      ProcessNextTask(spawnError);
    }

    /** The worker in slot k emitted 'error': reject its task, free the
        slot, and start the oldest waiting task there. */
    method Fail(k: nat, error: string, spawnError: Option<string>)
      requires Valid() && k < slots.Length && slots[k].busy
      modifies this, slots
      ensures Valid() && slots == old(slots)
      ensures State() == DispatchChecked(Finish(old(State()), k, Rejected(error)), spawnError)
    {
      FinishChecked(State(), k, Rejected(error));
      ghost var s0 := slots[..];
      var id := slots[k].task.value;
      settled := settled[id := Rejected(error)];
      status := status[id := Settled];
      slots[k] := Slot(false, None);
      assert slots[..] == s0[k := Slot(false, None)];
      ProcessNextTask(spawnError);
    }
  }

  /** Task statuses after `i` back-to-back submissions to a CheckedPool: the
      first WORKER_COUNT run, the rest wait; none is lost. */
  ghost function WaitingStatus(i: nat): map<nat, Status>
  {
    map j: nat | j < i :: if j < WORKER_COUNT then Running(j) else Queued
  }

  /** The queue after `i` back-to-back submissions: tasks WORKER_COUNT .. i-1. */
  function Backlog<D>(data: seq<D>, i: nat): (q: seq<Task<D>>)
    requires i <= |data|
    ensures |q| == Max(i - WORKER_COUNT, 0)
  {
    if i <= WORKER_COUNT then [] else Backlog(data, i - 1) + [Task(i - 1, data[i - 1])]
  }

  /** A fresh CheckedPool after the first `i` submissions of `data`. */
  ghost function BackloggedState<D, M>(data: seq<D>, i: nat): PoolState<D, M>
    requires i <= |data|
  {
    PoolState(Saturated(i), Backlog(data, i), i, map[], WaitingStatus(i))
  }

  lemma WaitingStep(i: nat)
    ensures i < WORKER_COUNT ==> WaitingStatus(i)[i := Running(i)] == WaitingStatus(i + 1)
    ensures i >= WORKER_COUNT ==> WaitingStatus(i)[i := Queued] == WaitingStatus(i + 1)
  {
  }

  /** One more submission: the task starts while a slot is free, and waits
      at the back of the queue after. */
  lemma CheckedSubmitStep<D, M>(data: seq<D>, i: nat)
    requires i < |data|
    ensures DispatchChecked(Submit(BackloggedState<D, M>(data, i), data[i]), None) == BackloggedState<D, M>(data, i + 1)
  {
    SaturatedStep(i);
    WaitingStep(i);
    var s1 := Submit(BackloggedState<D, M>(data, i), data[i]);
    if i < WORKER_COUNT {
      assert s1.queue == [Task(i, data[i])] && s1.queue[1..] == [];
      assert WaitingStatus(i)[i := Queued][i := Running(i)] == WaitingStatus(i)[i := Running(i)];
    } else {
      assert s1.queue == Backlog(data, i + 1);
    }
  }

  /** After the same submissions to a CheckedPool the first WORKER_COUNT
      tasks run, the rest wait in order, and none is lost. */
  lemma BackloggedWaits<D, M>(data: seq<D>)
    ensures var st := BackloggedState<D, M>(data, |data|);
      && st.queue == Backlog(data, |data|) && st.settled == map[]
      && (forall i :: 0 <= i < |data| ==> i in st.status && st.status[i] != Lost)
      && (forall i :: 0 <= i < |data| && i < WORKER_COUNT ==> st.status[i] == Running(i))
      && (forall i :: WORKER_COUNT <= i < |data| ==> st.status[i] == Queued)
  {
  }

  /** The next submission of the loop below. */
  method SubmitNextChecked<D, M>(p: CheckedPool<D, M>, data: seq<D>, i: nat) returns (id: nat)
    requires i < |data| && p.Valid() && p.State() == BackloggedState<D, M>(data, i)
    modifies p, p.slots
    ensures p.Valid() && p.slots == old(p.slots) && p.State() == BackloggedState<D, M>(data, i + 1)
    ensures id == i
  {
    CheckedSubmitStep<D, M>(data, i);
    id := p.RunTask(data[i], None);
  }

  /** The same submissions to a CheckedPool: the first WORKER_COUNT start,
      the rest wait in order, and none is lost. */
  method SubmitAllChecked<D, M>(data: seq<D>) returns (p: CheckedPool<D, M>, ids: seq<nat>)
    ensures p.Valid() && p.State() == BackloggedState<D, M>(data, |data|)
    ensures |ids| == |data| && forall i :: 0 <= i < |ids| ==> ids[i] == i
  {
    p := new CheckedPool<D, M>();
    ids := [];
    assert p.slots[..] == Saturated(0);
    assert p.State() == BackloggedState<D, M>(data, 0);
    var i := 0;
    while i < |data|
      invariant 0 <= i <= |data| && |ids| == i && forall j :: 0 <= j < i ==> ids[j] == j
      invariant p.Valid() && fresh(p.slots) && p.State() == BackloggedState<D, M>(data, i)
    {
      var id := SubmitNextChecked(p, data, i);
      ids := ids + [id];
      i := i + 1;
    }
  }
}
