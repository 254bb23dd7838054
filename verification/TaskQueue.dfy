/** The bounded task queue with one worker (taskqueue/taskqueue.go). */
module TaskQueue {
  import opened Wrappers
  import Seqs

  datatype Task = Task(idx: nat, subject: string, args: seq<string>)

  /** What a handler returns: no error, or one. */
  type Answer = Option<string>

  datatype Pushed = Accepted(task: Task) | Undefined(subject: string) | CapacityExhausted(capacity: nat)

  // ---------------------------------------------------------------------
  // Indexes

  const MAX_UINT8: nat := 255

  /** Task number k carries index k mod 255, plus one. */
  ghost predicate Numbered(accepted: seq<Task>) {
    forall k :: 0 <= k < |accepted| ==> accepted[k].idx == k % MAX_UINT8 + 1
  }

  lemma NextIndex(n: nat)
    ensures var idx := n % MAX_UINT8 + 1;
      (n + 1) % MAX_UINT8 == if idx > MAX_UINT8 - 1 then 0 else idx
  {
  }

  ghost predicate DistinctIndexes(tasks: seq<Task>) {
    forall i, j :: 0 <= i < j < |tasks| ==> tasks[i].idx != tasks[j].idx
  }

  /** Any consecutive tasks have distinct indexes exactly when there are at most 255 of them. */
  lemma DistinctIff(accepted: seq<Task>, lo: nat, hi: nat)
    requires Numbered(accepted) && lo <= hi <= |accepted|
    ensures DistinctIndexes(accepted[lo..hi]) <==> hi - lo <= MAX_UINT8
  {
    var tasks := accepted[lo..hi];
    assert forall i :: 0 <= i < |tasks| ==> tasks[i] == accepted[lo + i];
    if hi - lo > MAX_UINT8 {
      IndexesDiffer(lo, lo + MAX_UINT8);
      assert tasks[0].idx == tasks[MAX_UINT8].idx;
    } else {
      forall i, j | 0 <= i < j < |tasks|
        ensures tasks[i].idx != tasks[j].idx
      {
        IndexesDiffer(lo + i, lo + j);
      }
    }
  }

  lemma IndexesDiffer(a: nat, b: nat)
    requires a < b <= a + MAX_UINT8
    ensures a % MAX_UINT8 != b % MAX_UINT8 <==> b < a + MAX_UINT8
  {
  }

  // ---------------------------------------------------------------------
  // The ring of last tasks

  function Somes(tasks: seq<Task>): (r: seq<Option<Task>>)
    ensures |r| == |tasks| && forall i :: 0 <= i < |r| ==> r[i] == Some(tasks[i])
  {
    seq(|tasks|, i requires 0 <= i < |tasks| => Some(tasks[i]))
  }

  /** The last tasks, at most capacity of them. */
  function Last(accepted: seq<Task>, capacity: nat): seq<Task> {
    if |accepted| <= capacity then accepted else accepted[|accepted| - capacity..]
  }

  /** Capacity places, oldest first: empty ones, then the last tasks. */
  function Window(accepted: seq<Task>, capacity: nat): (r: seq<Option<Task>>)
    ensures |r| == capacity
  {
    var last := Last(accepted, capacity);
    seq(capacity - |last|, i => None) + Somes(last)
  }

  lemma WindowMoves(accepted: seq<Task>, capacity: nat, task: Task)
    requires capacity > 0
    ensures Window(accepted + [task], capacity) == Window(accepted, capacity)[1..] + [Some(task)]
  {
    var all := accepted + [task];
    var last, last' := Last(accepted, capacity), Last(all, capacity);
    if |accepted| < capacity {
      assert last' == last + [task];
    } else {
      assert last' == last[1..] + [task];
    }
    assert Somes(last + [task]) == Somes(last) + [Some(task)];
  }

  /** What the ring holds going round once from where the next task goes. */
  function Round(ring: seq<Option<Task>>, at: nat): seq<Option<Task>>
    requires at < |ring|
  {
    ring[at..] + ring[..at]
  }

  lemma RoundMoves(ring: seq<Option<Task>>, at: nat, v: Option<Task>)
    requires at < |ring|
    ensures Round(ring[at := v], if at + 1 == |ring| then 0 else at + 1) == Round(ring, at)[1..] + [v]
  {
    var ring' := ring[at := v];
    if at + 1 == |ring| {
      assert Round(ring, at)[1..] == ring[..at];
      assert Round(ring', 0) == ring[..at] + [v];
    } else {
      assert Round(ring, at)[1..] == ring[at + 1..] + ring[..at];
      assert ring'[..at + 1] == ring[..at] + [v];
      assert Round(ring', at + 1) == ring[at + 1..] + (ring[..at] + [v]);
    }
  }

  /** The tasks in a window, in order. */
  function Present(places: seq<Option<Task>>): seq<Task> {
    if places == [] then []
    else Present(places[..|places| - 1]) + (match places[|places| - 1] case None => [] case Some(t) => [t])
  }

  lemma PresentNext(places: seq<Option<Task>>, i: nat)
    requires i < |places|
    ensures Present(places[..i + 1])
            == Present(places[..i]) + (match places[i] case None => [] case Some(t) => [t])
  {
    assert places[..i + 1][..i] == places[..i];
  }

  lemma {:induction false} PresentPadded(n: nat, tasks: seq<Task>)
    ensures Present(seq(n, i => None) + Somes(tasks)) == tasks
    decreases n + |tasks|
  {
    var places := seq(n, i => None) + Somes(tasks);
    if tasks != [] {
      var init := tasks[..|tasks| - 1];
      assert places[..|places| - 1] == seq(n, i => None) + Somes(init);
      PresentPadded(n, init);
    } else if n > 0 {
      assert places[..|places| - 1] == seq(n - 1, i => None) + Somes([]);
      PresentPadded(n - 1, []);
    }
  }

  // ---------------------------------------------------------------------
  // Answers

  /**
   * Accepted tasks are answered in push order, each once and by the handler of its
   * subject; those not answered are outstanding.
   */
  ghost predicate Answered(handlers: map<string, Task -> Answer>, accepted: seq<Task>, answers: seq<Answer>,
                           outstanding: seq<Task>)
  {
    && |answers| <= |accepted|
    && accepted[|answers|..] == outstanding
    && (forall t :: t in accepted ==> t.subject in handlers)
    && forall k :: 0 <= k < |answers| ==> answers[k] == handlers[accepted[k].subject](accepted[k])
  }

  lemma AnsweredGrows(handlers: map<string, Task -> Answer>, accepted: seq<Task>, answers: seq<Answer>,
                      outstanding: seq<Task>, task: Task)
    requires Answered(handlers, accepted, answers, outstanding) && task.subject in handlers
    ensures Answered(handlers, accepted + [task], answers, outstanding + [task])
  {
  }

  lemma NumberedGrows(accepted: seq<Task>, task: Task)
    requires Numbered(accepted) && task.idx == |accepted| % MAX_UINT8 + 1
    ensures Numbered(accepted + [task])
  {
  }

  // ---------------------------------------------------------------------
  // The queue

  class TaskQueue {
    const capacity: nat
    const handlers: map<string, Task -> Answer>
    var idx: nat
    var queue: seq<Task>
    /** What the worker has taken and not finished. */
    var running: Option<Task>
    const ring: array<Option<Task>>
    var at: nat
    /** The answers sent so far: number k is on the channel of the k-th accepted task. */
    var answers: seq<Answer>
    ghost var accepted: seq<Task>

    /** Taken by the worker or still waiting, in that order. */
    function Outstanding(): seq<Task>
      reads this
    {
      (match running case None => [] case Some(t) => [t]) + queue
    }

    ghost predicate Valid()
      reads this, ring
    {
      && 0 < capacity <= MAX_UINT8 && |queue| <= capacity
      && ring.Length == capacity && at < capacity
      && Answered(handlers, accepted, answers, Outstanding())
      && Numbered(accepted) && idx == |accepted| % MAX_UINT8
      && Round(ring[..], at) == Window(accepted, capacity)
    }

    constructor (capacity: nat, handlers: map<string, Task -> Answer>)
      requires 0 < capacity <= MAX_UINT8
      ensures Valid() && accepted == [] && this.capacity == capacity && this.handlers == handlers && fresh(ring)
    {
      this.capacity, this.handlers := capacity, handlers;
      idx, queue, running, at, answers, accepted := 0, [], None, 0, [], [];
      ring := new Option<Task>[capacity](i => None);
      new;
      assert Somes([]) == [];
    }

    /** The ring moves on by one place: the oldest goes, this task is the newest. */
    method Record(task: Task)
      requires ring.Length == capacity && at < capacity
      modifies this`at, ring
      ensures at < capacity && Round(ring[..], at) == old(Round(ring[..], at))[1..] + [Some(task)]
    {
      RoundMoves(ring[..], at, Some(task));
      ring[at] := Some(task);
      at := if at + 1 == capacity then 0 else at + 1;
    }

    method Enqueue(task: Task)
      requires Valid() && task.subject in handlers && task.idx == |accepted| % MAX_UINT8 + 1 && |queue| < capacity
      modifies this`idx, this`queue, this`at, this`accepted, ring
      ensures Valid() && accepted == old(accepted) + [task] && queue == old(queue) + [task]
    {
      ghost var was := accepted;
      WindowMoves(accepted, capacity, task);
      NumberedGrows(accepted, task);
      AnsweredGrows(handlers, accepted, answers, Outstanding(), task);
      Seqs.Assoc(match running case None => [] case Some(t) => [t], queue, [task]);
      NextIndex(|accepted|);
      queue := queue + [task];
      idx := task.idx;
      if idx > MAX_UINT8 - 1 {
        idx := 0;
      }
      Record(task);
      accepted := was + [task];
    }

    /**
     * A push is accepted exactly when its subject is known and the queue has room;
     * a refused one changes nothing.
     */
    method PushAsync(subject: string, args: seq<string>) returns (r: Pushed)
      requires Valid()
      modifies this`idx, this`queue, this`at, this`accepted, ring
      ensures Valid()
      ensures r.Undefined? <==> subject !in handlers
      ensures r.CapacityExhausted? <==> subject in handlers && |old(queue)| == capacity
      ensures r.Accepted? ==>
        && r.task == Task(|old(accepted)| % MAX_UINT8 + 1, subject, args)
        && accepted == old(accepted) + [r.task] && queue == old(queue) + [r.task]
      ensures !r.Accepted? ==>
        && ring[..] == old(ring[..]) && idx == old(idx) && at == old(at)
        && queue == old(queue) && accepted == old(accepted)
    {
      if subject !in handlers {
        return Undefined(subject);
      }
      var task := Task((idx + 1) % 256, subject, args);
      if |queue| == capacity {
        return CapacityExhausted(capacity);
      }
      Enqueue(task);
      r := Accepted(task);
    }

    /** The worker takes the oldest entry. */
    method Take()
      requires Valid() && running.None? && queue != []
      modifies this`queue, this`running
      ensures Valid() && running == Some(old(queue)[0]) && queue == old(queue)[1..]
    {
      running := Some(queue[0]);
      queue := queue[1..];
    }

    /** It handles that entry and sends the answer. */
    method Finish()
      requires Valid() && running.Some?
      modifies this`running, this`answers
      ensures Valid() && running.None? && |answers| == |old(answers)| + 1
      ensures var task := old(running).value;
        task.subject in handlers && answers == old(answers) + [handlers[task.subject](task)]
    {
      var task := running.value;
      assert accepted[|answers|] == Outstanding()[0] == task;
      assert accepted[|answers| + 1..] == accepted[|answers|..][1..];
      var answer := handlers[task.subject](task);
      running := None;
      answers := answers + [answer];
    }

    /** Tasks not answered yet never share an index, if the capacity is at most 254. */
    lemma OutstandingDistinct()
      requires Valid() && capacity <= 254
      ensures DistinctIndexes(Outstanding())
    {
      DistinctIff(accepted, |answers|, |accepted|);
      assert accepted[|answers|..|accepted|] == Outstanding();
    }

    /** With capacity 255, a task that is running and 255 that wait do share one. */
    lemma FullQueueShares()
      requires Valid() && capacity == 255 && running.Some? && |queue| == 255
      ensures !DistinctIndexes(Outstanding())
    {
      DistinctIff(accepted, |answers|, |accepted|);
      assert accepted[|answers|..|accepted|] == Outstanding();
    }

    /** What the debugger is shown: the last tasks accepted, oldest first. */
    method LastTasks() returns (tasks: seq<Task>)
      requires Valid()
      ensures tasks == Last(accepted, capacity)
    {
      tasks := CollectRing();
      ghost var last := Last(accepted, capacity);
      PresentPadded(capacity - |last|, last);
    }

    method CollectRing() returns (tasks: seq<Task>)
      requires ring.Length == capacity && at < capacity
      ensures tasks == Present(Round(ring[..], at))
    {
      tasks := [];
      ghost var places := Round(ring[..], at);
      var p := at;
      for i := 0 to capacity
        invariant p == (if at + i < capacity then at + i else at + i - capacity)
        invariant tasks == Present(places[..i])
        invariant places == Round(ring[..], at) && i <= |places|
      {
        PresentNext(places, i);
        if ring[p].Some? {
          tasks := tasks + [ring[p].value];
        }
        p := if p + 1 == capacity then 0 else p + 1;
      }
      assert places[..capacity] == places;
    }

    /** The worker answers everything pushed so far. */
    method Drain()
      requires Valid()
      modifies this`queue, this`running, this`answers
      ensures Valid() && running.None? && queue == []
    {
      while running.Some? || queue != []
        invariant Valid()
        decreases |queue|, running.Some?
      {
        if running.None? {
          Take();
        } else {
          Finish();
        }
      }
    }

    /** Pushes and waits: the worker first answers everything pushed before. */
    method PushSync(subject: string, args: seq<string>) returns (refused: bool, answer: Answer)
      requires Valid()
      modifies this, ring
      ensures Valid()
      ensures refused <==> subject !in handlers || |old(queue)| == capacity
      ensures refused ==> accepted == old(accepted) && answers == old(answers)
      ensures !refused ==>
        && |accepted| == |old(accepted)| + 1 && |answers| == |accepted|
        && accepted[|old(accepted)|] == Task(|old(accepted)| % MAX_UINT8 + 1, subject, args)
        && answer == handlers[subject](accepted[|old(accepted)|])
    {
      var r := PushAsync(subject, args);
      refused, answer := !r.Accepted?, None;
      if refused {
        return;
      }
      Drain();
      answer := answers[|answers| - 1];
    }
  }

  /** So 254 is exact: capacity 255 can be filled until two tasks not answered yet share an index. */
  method FillUntilShared(subject: string, handlers: map<string, Task -> Answer>) returns (q: TaskQueue)
    requires subject in handlers
    ensures fresh(q) && fresh(q.ring) && q.Valid() && q.capacity == MAX_UINT8
    ensures |q.accepted| == MAX_UINT8 + 1 && q.answers == [] && !DistinctIndexes(q.Outstanding())
  {
    q := new TaskQueue(MAX_UINT8, handlers);
    var r := q.PushAsync(subject, []);
    q.Take();
    for i := 0 to MAX_UINT8
      invariant fresh(q) && fresh(q.ring) && q.Valid() && q.capacity == MAX_UINT8 && q.handlers == handlers
      invariant |q.queue| == i && |q.accepted| == i + 1 && q.running.Some? && q.answers == []
    {
      r := q.PushAsync(subject, []);
    }
    q.FullQueueShares();
  }
}
