/** The objects of cmd/bot/serve.go and internal/webhook/handler.go as they are: the queue, the
    webhook that fills it and the worker that drains it, each tied to the steps of the models. */
module Worker {
  import opened Text
  import opened Command
  import opened Threads
  import opened Handler
  import opened Bot
  import Q = Queue

  class EventQueue {
    const size: nat
    const warnAt: nat
    var ch: seq<Event>
    var warned: bool
    ghost var accepted: seq<Event>
    ghost var consumed: seq<Event>
    ghost var warnings: nat
    ghost var resets: nat

    ghost function State(): Q.State<Event>
      reads this
    {
      Q.State(ch, warned, map[], accepted, consumed, warnings, resets)
    }

    ghost predicate Valid()
      reads this
    {
      warnAt == Q.WarnAt(size) && Q.Inv(State(), size)
    }

    constructor (size: nat)
      ensures Valid() && this.size == size && State() == Q.Start()
    {
      this.size, this.warnAt := size, Q.WarnAt(size);
      ch, warned := [], false;
      accepted, consumed, warnings, resets := [], [], 0, 0;
    }

    /** Never blocks; false when the buffer is full. */
    method Enqueue(ev: Event) returns (ok: bool)
      requires Valid()
      modifies this
      ensures Valid() && ok == (|old(ch)| < size)
      ensures State() == Q.EnqueueAlone(old(State()), ev, size)
    {
      if |ch| < size {
        ch := ch + [ev];
        accepted := accepted + [ev];
        var depth := |ch|;
        if depth >= warnAt {
          if !warned {
            warned, warnings := true, warnings + 1;
          }
        } else {
          resets := resets + if warned then 1 else 0;
          warned := false;
        }
        return true;
      } else {
        return false;
      }
    }

    method Receive() returns (ev: Event)
      requires Valid() && ch != []
      modifies this
      ensures Valid() && ev == old(ch)[0]
      ensures State() == Q.Next(Q.Receive, old(State()), size)
    {
      Q.StepKeepsInv(Q.Receive, State(), size);
      ev := ch[0];
      ch, consumed := ch[1..], consumed + [ev];
    }
  }

  /** A POST to the webhook: whether it authenticates, its X-Gitlab-Event header, and what its
      body decodes to as either payload, None where it is malformed. */
  datatype Request = Request(authentic: bool, kind: string,
                             pipeline: Option<PipelineEvent>, note: Option<(bool, NoteEvent)>)

  datatype Reading = Unauthorized | Malformed | Unrouted | Delivery(h: Hook)

  /** What a request comes to; notes are not even decoded while commands are disabled. */
  function Read(r: Request, c: Setup): Reading {
    if !r.authentic then Unauthorized
    else if r.kind == "Pipeline Hook" then
      if r.pipeline.Some? then Delivery(PipelineHook(r.pipeline.value)) else Malformed
    else if r.kind == "Note Hook" && c.commands then
      if r.note.Some? then Delivery(NoteHook(r.note.value.0, r.note.value.1)) else Malformed
    else Unrouted
  }

  class Webhook {
    const queue: EventQueue

    constructor (queue: EventQueue)
      ensures this.queue == queue
    {
      this.queue := queue;
    }

    /** 503 exactly when an event is dropped; what is refused or ignored leaves the queue alone. */
    method Receive(r: Request, c: Setup) returns (status: int)
      requires queue.Valid() && queue.size == c.capacity
      modifies queue
      ensures queue.Valid()
      ensures status == 401 <==> !r.authentic
      ensures status == 400 <==>
                r.authentic &&
                ((r.kind == "Pipeline Hook" && r.pipeline.None?) ||
                 (r.kind == "Note Hook" && c.commands && r.note.None?))
      ensures Read(r, c).Delivery? <==>
                r.authentic &&
                ((r.kind == "Pipeline Hook" && r.pipeline.Some?) ||
                 (r.kind == "Note Hook" && c.commands && r.note.Some?))
      ensures Read(r, c).Delivery? ==>
                Read(r, c).h == if r.kind == "Pipeline Hook" then PipelineHook(r.pipeline.value)
                                else NoteHook(r.note.value.0, r.note.value.1)
      ensures status == 503 <==> Read(r, c).Delivery? && Admit(Read(r, c).h, c).Some? && |old(queue.ch)| >= c.capacity
      ensures status in {200, 400, 401, 503}
      ensures Read(r, c).Delivery? ==> Offered(old(queue.State()), Read(r, c).h, c, status)
      ensures if Read(r, c).Delivery? then
                forall w: World | w.buffer == old(queue.ch) ::
                  queue.ch == Deliver(w.(pending := [Read(r, c).h]), 0, c).buffer
              else queue.State() == old(queue.State())
    {
      if !r.authentic {
        return 401;
      }
      if r.kind == "Pipeline Hook" {
        status := HandlePipeline(r, c);
      } else if r.kind == "Note Hook" {
        if !c.commands {
          return 200;
        }
        status := HandleNote(r, c);
      } else {
        return 200;
      }
    }

    method HandlePipeline(r: Request, c: Setup) returns (status: int)
      requires queue.Valid() && queue.size == c.capacity
      modifies queue
      ensures queue.Valid()
      ensures r.pipeline.None? ==> status == 400 && queue.State() == old(queue.State())
      ensures r.pipeline.Some? ==> Offered(old(queue.State()), PipelineHook(r.pipeline.value), c, status)
    {
      if r.pipeline.None? {
        return 400;
      }
      var ev := r.pipeline.value;
      if ev.status !in {"success", "failed"} {
        return 200;
      }
      var ok := queue.Enqueue(PipelineWork(ev));
      status := if ok then 200 else 503;
    }

    method HandleNote(r: Request, c: Setup) returns (status: int)
      requires queue.Valid() && queue.size == c.capacity && c.commands
      modifies queue
      ensures queue.Valid()
      ensures r.note.None? ==> status == 400 && queue.State() == old(queue.State())
      ensures r.note.Some? ==> Offered(old(queue.State()), NoteHook(r.note.value.0, r.note.value.1), c, status)
    {
      if r.note.None? {
        return 400;
      }
      var (onMr, note) := r.note.value;
      if !onMr {
        return 200;
      }
      if Parse(note.body).None? {
        return 200;
      }
      var ok := queue.Enqueue(NoteWork(note));
      status := if ok then 200 else 503;
    }

    /** The filter's event is queued, or dropped with 503 if the queue was full; else nothing happens. */
    ghost predicate Offered(was: Q.State<Event>, h: Hook, c: Setup, status: int)
      reads queue
    {
      match Admit(h, c)
      case None => status == 200 && queue.State() == was
      case Some(ev) =>
        status == (if |was.buf| >= c.capacity then 503 else 200) &&
        queue.State() == Q.EnqueueAlone(was, ev, c.capacity)
    }
  }

  /** What processNote leaves: the notes seen, the threads, and the pipeline of the reply call. */
  datatype Outcome = Outcome(seen: set<int>, threads: seq<Thread>, called: Option<int>)

  function NoteOutcome(seen: set<int>, ts: seq<Thread>, n: NoteEvent, fetched: bool,
                       c: Config, b: Backend, fate: Fate, id: int): Outcome
  {
    if n.noteId in seen then Outcome(seen, ts, None) else
    var seen' := seen + {n.noteId};
    match Handle(n, RootFor(ts, n, fetched), c, b)
    case Ignored => Outcome(seen', ts, None)
    case Failed => Outcome(seen', ts, None)
    case Reply(pipeline, body) =>
      var note := Note(id, c.bot, false, body);
      var ts' := if fate.Refused? || n.discussion >= |ts| then ts else Append(ts, n.discussion, note);
      Outcome(seen', ts', Some(pipeline))
  }

  class NoteWorker {
    var seen: set<int>

    constructor ()
      ensures seen == {}
    {
      seen := {};
    }

    method ProcessNote(n: NoteEvent, mr: MergeRequest, fetched: bool, c: Config, b: Backend, fate: Fate, id: int)
      returns (called: Option<int>)
      modifies this, mr
      ensures Outcome(seen, mr.threads, called) == NoteOutcome(old(seen), old(mr.threads), n, fetched, c, b, fate, id)
    {
      called := None;
      if n.noteId in seen {
        return;
      }
      seen := seen + {n.noteId};
      var root := RootFor(mr.threads, n, fetched);
      match Handle(n, root, c, b) {
        case Ignored =>
        case Failed =>
        case Reply(pipeline, body) =>
          called := Some(pipeline);
          if !fate.Refused? && n.discussion < |mr.threads| {
            mr.threads := Append(mr.threads, n.discussion, Note(id, c.bot, false, body));
          }
      }
    }
  }

  /** The model's world when the worker has decided about the note it received. */
  function Decided(w: World, fetched: bool, b: Backend, c: Setup): World
    requires w.buffer != []
  {
    var taken := Take(w, Err, Err, c);
    if taken.work.Handling? then Authorize(taken, fetched, b, c) else taken
  }

  lemma DecidedIs(w: World, n: NoteEvent, fetched: bool, b: Backend, c: Setup)
    requires w.work.Idle? && w.buffer != [] && w.buffer[0] == NoteWork(n)
    ensures var d := Decided(w, fetched, b, c);
            var h := Handle(n, RootFor(Of(w, (n.project, n.mr)), n, fetched), c.handler, b);
            && d.buffer == w.buffer[1..] && d.mrs == w.mrs && d.calls == w.calls
            && d.seen == w.seen + {n.noteId}
            && d.work == if n.noteId !in w.seen && h.Reply? then Replying(n, h.pipeline, h.body) else Idle
  {
    hide Handle, Prepare, RootFor;
    assert n.noteId in w.seen ==> w.seen + {n.noteId} == w.seen;
  }

  /** Processing a note in one go is the model's steps one after the other. */
  lemma NoteStepsAgree(w: World, n: NoteEvent, fetched: bool, b: Backend, fate: Fate, id: int, echoes: nat, c: Setup)
    requires w.work.Idle? && w.buffer != [] && w.buffer[0] == NoteWork(n)
    ensures var m := (n.project, n.mr);
            var o := NoteOutcome(w.seen, Of(w, m), n, fetched, c.handler, b, fate, id);
            var decided := Decided(w, fetched, b, c);
            var done := if decided.work.Replying? then SendReply(decided, fate, id, echoes, c) else decided;
            && done.work.Idle? && done.buffer == w.buffer[1..]
            && done.seen == o.seen && Of(done, m) == o.threads
            && done.calls == w.calls + if o.called.Some? then [Call(n.noteId, o.called.value)] else []
  {
    hide Handle, Append, Copies, HookFor, Decided, RootFor, Prepare;
    DecidedIs(w, n, fetched, b, c);
  }
}
