/** The service as a sequential state machine: requests arrive one after
    another and each is handed to its handler together with the store the
    previous requests left behind. */
module Server {
  import opened Results
  import opened Tasks
  import opened Handlers

  /** The four routes, each with the part of the request its handler reads. */
  datatype Request =
    | ListTasks
    | CreateTask(post: PostRequest)
    | GetTask(id: string)
    | DeleteTask(id: string)

  /** What the client sees of one response. */
  datatype Reply = Reply(status: Status, payload: Option<Payload>)

  function ReplyOf(step: Step): (r: Reply)
  {
    Reply(step.status, step.payload)
  }

  /** The request posts a body that decodes to a task with this id. */
  predicate IsCreateOf(req: Request, id: string)
  {
    req.CreateTask? && req.post.body.Ok? && req.post.body.value.id == id
  }

  /** Dispatch of one request to its handler. */
  function Handle(req: Request, s: Store): (r: Step)
  {
    match req
    case ListTasks => GetTasks(s)
    case CreateTask(post) => InsertTask(post, s)
    case GetTask(id) => GetTaskID(id, s)
    case DeleteTask(id) => DeleteTaskID(id, s)
  }

  /** No route ever breaks the key/id agreement. */
  lemma HandleKeepsWellKeyed(req: Request, s: Store)
    requires WellKeyed(s)
    ensures WellKeyed(Handle(req, s).store)
  {
  }

  /** Only a create or a delete can change the store: a create only adds keys
      and a delete only removes them. */
  lemma HandleFrame(req: Request, s: Store)
    ensures (req.ListTasks? || req.GetTask?) ==> Handle(req, s).store == s
    ensures req.CreateTask? ==> Handle(req, s).store.Keys >= s.Keys
    ensures req.DeleteTask? ==> Handle(req, s).store.Keys <= s.Keys
  {
  }

  /** What one request does to a single entry: an entry that survives keeps its
      value, and an entry that appears is the task the request posted. */
  lemma HandleOnEntry(req: Request, s: Store, id: string)
    requires id in Handle(req, s).store
    ensures id in s ==> Handle(req, s).store[id] == s[id]
    ensures id !in s ==> IsCreateOf(req, id) && Handle(req, s).store[id] == req.post.body.value
  {
  }

  /** The store after serving `reqs` in order, starting from `s`. */
  function Run(reqs: seq<Request>, s: Store): (s': Store)
    decreases |reqs|
  {
    if |reqs| == 0 then s
    else Handle(reqs[|reqs| - 1], Run(reqs[..|reqs| - 1], s)).store
  }

  /** The reply request `i` of `reqs` receives when the run starts from `s`:
      its handler's answer on the store the requests before it left. */
  function ReplyAt(reqs: seq<Request>, s: Store, i: nat): (r: Reply)
    requires i < |reqs|
  {
    ReplyOf(Handle(reqs[i], Run(reqs[..i], s)))
  }

  /** The replies to `reqs` served in order from `s`, one per request. */
  function Replies(reqs: seq<Request>, s: Store): (rs: seq<Reply>)
    ensures |rs| == |reqs|
    decreases |reqs|
  {
    if |reqs| == 0 then []
    else
      var prefix := reqs[..|reqs| - 1];
      Replies(prefix, s) + [ReplyOf(Handle(reqs[|reqs| - 1], Run(prefix, s)))]
  }

  /** Serves the requests one at a time, collecting the replies and the final store. */
  method Serve(reqs: seq<Request>, s: Store) returns (replies: seq<Reply>, final: Store)
    ensures |replies| == |reqs|
    ensures replies == Replies(reqs, s)
    ensures final == Run(reqs, s)
  {
    replies := [];
    final := s;
    var i := 0;
    while i < |reqs|
      invariant 0 <= i <= |reqs|
      invariant replies == Replies(reqs[..i], s)
      invariant final == Run(reqs[..i], s)
    {
      var step := Handle(reqs[i], final);
      assert reqs[..i + 1][..i] == reqs[..i];
      replies := replies + [ReplyOf(step)];
      final := step.store;
      i := i + 1;
    }
    assert reqs[..i] == reqs;
  }

  /** Reply `i` of a run is what request `i` gets from the store that the
      requests before it left behind. */
  lemma {:induction false} RepliesAreHandlerAnswers(reqs: seq<Request>, s: Store, i: nat)
    requires i < |reqs|
    ensures Replies(reqs, s)[i] == ReplyAt(reqs, s, i)
    decreases |reqs|
  {
    var n := |reqs| - 1;
    var prefix := reqs[..n];
    if i < n {
      RepliesAreHandlerAnswers(prefix, s, i);
      assert prefix[..i] == reqs[..i];
      assert prefix[i] == reqs[i];
    }
  }

  /** The key/id agreement holds after any run that starts from a store where it holds. */
  lemma {:induction false} RunKeepsWellKeyed(reqs: seq<Request>, s: Store)
    requires WellKeyed(s)
    ensures WellKeyed(Run(reqs, s))
    decreases |reqs|
  {
    if |reqs| > 0 {
      var prefix := reqs[..|reqs| - 1];
      RunKeepsWellKeyed(prefix, s);
      HandleKeepsWellKeyed(reqs[|reqs| - 1], Run(prefix, s));
    }
  }

  /** No update operation exists: an entry present at the start keeps its exact
      value through any run of requests that never deletes its id. */
  lemma {:induction false} EntryNeverRewritten(reqs: seq<Request>, s: Store, id: string)
    requires id in s
    requires forall i :: 0 <= i < |reqs| ==> reqs[i] != DeleteTask(id)
    ensures id in Run(reqs, s)
    ensures Run(reqs, s)[id] == s[id]
    decreases |reqs|
  {
    if |reqs| > 0 {
      var prefix := reqs[..|reqs| - 1];
      EntryNeverRewritten(prefix, s, id);
      var before := Run(prefix, s);
      var last := reqs[|reqs| - 1];
      assert last != DeleteTask(id);
      assert id in Handle(last, before).store by {
        match last
        case ListTasks =>
        case GetTask(_) =>
        case CreateTask(_) =>
        case DeleteTask(other) =>
          assert other != id;
      }
      HandleOnEntry(last, before, id);
    }
  }

  /** Every entry of the store after a run either was there at the start,
      unchanged, or is exactly the task some request of the run posted. */
  lemma {:induction false} EntryHasOrigin(reqs: seq<Request>, s: Store, id: string)
    requires id in Run(reqs, s)
    ensures || (id in s && Run(reqs, s)[id] == s[id])
            || (exists i :: 0 <= i < |reqs| && IsCreateOf(reqs[i], id) && reqs[i].post.body.value == Run(reqs, s)[id])
    decreases |reqs|
  {
    if |reqs| > 0 {
      var n := |reqs| - 1;
      var prefix := reqs[..n];
      var before := Run(prefix, s);
      var after := Run(reqs, s);
      assert after == Handle(reqs[n], before).store;
      HandleOnEntry(reqs[n], before, id);
      if id in before {
        EntryHasOrigin(prefix, s, id);
        if !(id in s && after[id] == s[id]) {
          var i :| 0 <= i < |prefix| && IsCreateOf(prefix[i], id) && prefix[i].post.body.value == before[id];
          assert reqs[i] == prefix[i];
        }
      }
    }
  }

  /** Starting from the seed, every entry is filed under its own id after any
      run of requests. */
  lemma SeededRunsAreWellKeyed(reqs: seq<Request>)
    ensures forall id :: id in Run(reqs, Seed()) ==> Run(reqs, Seed())[id].id == id
  {
    RunKeepsWellKeyed(reqs, Seed());
  }
}
