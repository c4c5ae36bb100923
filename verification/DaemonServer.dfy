/**
 * The daemon as its source has it: an object whose lanes are shifted, pushed and spliced in
 * place. Each method is one stretch of code between awaits, proved equal to the function of
 * the same step in module Daemon; `Handle` is the whole event loop turn.
 */
module DaemonServer {
  import opened Prelude
  import opened Daemon

  class ModelDaemon {
    const handlers: Handlers
    var interactive: seq<Job>
    var background: seq<Job>
    var busy: bool
    var running: Option<Job>
    var cancelled: map<Socket, set<nat>>
    var destroyed: set<Socket>
    var wire: map<Socket, seq<Frame>>
    ghost var accepted: seq<Job>
    ghost var starts: seq<nat>
    ghost var answers: seq<Answer>
    ghost var dropped: seq<nat>
    ghost var asked: set<(Socket, nat)>
    var serial: nat

    ghost function View(): Server
      reads this
    {
      Server(interactive, background, running, cancelled, destroyed, wire, accepted, starts, answers, dropped, asked)
    }

    ghost predicate Valid()
      reads this
    {
      Inv(handlers, View()) && busy == running.Some? && serial == |accepted|
    }

    constructor (handlers: Handlers)
      ensures View() == IDLE && !busy && serial == 0 && this.handlers == handlers
    {
      this.handlers := handlers;
      interactive, background, busy, running := [], [], false, None;
      cancelled, destroyed, wire, serial := map[], {}, map[], 0;
      accepted, starts, answers, dropped, asked := [], [], [], [], {};
    }

    method Write(socket: Socket, frame: Frame)
      modifies this`wire
      ensures View() == Send(old(View()), socket, frame)
    {
      if socket !in destroyed {
        var written := if socket in wire then wire[socket] else [];
        wire := wire[socket := written + [frame]];
      }
    }

    /** `interactive.shift() ?? background.shift()`. */
    method Shift() returns (job: Option<Job>)
      modifies this`interactive, this`background
      ensures job.None? ==> old(interactive) == [] && old(background) == [] && View() == old(View())
      ensures job.Some? ==> Shifted(old(View()), View(), job.value)
    {
      if interactive != [] {
        job, interactive := Some(interactive[0]), interactive[1..];
      } else if background != [] {
        job, background := Some(background[0]), background[1..];
      } else {
        job := None;
      }
    }

    /** The pump's loop, run until it awaits a step or finds both lanes empty. */
    method Pump()
      requires running.None? && serial == |accepted|
      modifies this
      ensures View() == Next(old(View()))
      ensures busy == running.Some? && serial == |accepted|
    {
      hide Next, Begin, Shifted;
      ghost var entry := View();
      busy := true;
      while true
        invariant running.None? && serial == |accepted| && busy
        invariant Next(View()) == Next(entry)
        decreases |interactive| + |background|
      {
        ghost var before := View();
        var shifted := Shift();
        if shifted.None? {
          NextOfNothing(before);
          break;
        }
        var job := shifted.value;
        ghost var rest := View();
        NextOfShifted(before, rest, job);
        var held := if job.socket in cancelled then cancelled[job.socket] else {};
        if job.socket in destroyed || job.id in held {
          dropped := dropped + [job.serial];
          assert View() == Daemon.Drop(rest, job);
          continue;
        }
        Start(job);
        return;
      }
      busy := false;
    }

    /** The job's step begins; what follows is awaited. */
    method Start(job: Job)
      modifies this`running, this`starts, this`wire
      ensures View() == Begin(old(View()), job) && running == Some(job)
    {
      running := Some(job);
      starts := starts + [job.serial];
      Write(job.socket, Started(job.id));
    }

    method RemoveFrom(q: seq<Job>, socket: Socket, target: nat) returns (kept: seq<Job>, ghost gone: seq<nat>)
      ensures kept == Without(q, IndexOf(q, socket, target)) && gone == Picked(q, IndexOf(q, socket, target))
    {
      var i := 0;
      while i < |q| && !Names(q[i], socket, target)
        invariant i <= |q|
        invariant forall k | 0 <= k < i :: !Names(q[k], socket, target)
      {
        i := i + 1;
      }
      ghost var first := IndexOf(q, socket, target);
      assert first == i;
      kept, gone := q, [];
      if i < |q| {
        kept, gone := q[..i] + q[i + 1..], [q[i].serial];
      }
    }

    method Remember(socket: Socket, target: nat)
      modifies this`cancelled
      ensures cancelled == old(cancelled)[socket := Daemon.Remember(CancelSet(old(View()), socket), target)]
    {
      var held := if socket in cancelled then cancelled[socket] else {};
      if |held| >= CANCEL_LIMIT {
        held := {};
      }
      cancelled := cancelled[socket := held + {target}];
    }

    method OnCancel(socket: Socket, target: nat)
      modifies this
      ensures View() == ArriveCancel(old(View()), socket, target)
      ensures busy == old(busy) && serial == old(serial) && running == old(running) && accepted == old(accepted)
    {
      hide IndexOf, Picked, Without, Daemon.Remember;
      Remember(socket, target);
      var kept, gone := RemoveFrom(interactive, socket, target);
      var keptB, goneB := RemoveFrom(background, socket, target);
      interactive, background := kept, keptB;
      dropped, asked := dropped + gone + goneB, asked + {(socket, target)};
    }

    method OnRequest(socket: Socket, request: Request)
      requires Valid()
      modifies this
      ensures View() == Arrive(old(View()), socket, request) && Valid()
    {
      hide Inv, Next, ArriveCancel;
      ArriveKeeps(handlers, View(), socket, request);
      match request
      case Cancel(_, target) =>
        OnCancel(socket, target);
      case Stats(id) =>
        Write(socket, Final(id, Report));
      case Submit(id, lane, work) =>
        Accept(Job(serial, socket, id, lane, work, 0, []));
        if !busy {
          Pump();
        }
    }

    method Accept(job: Job)
      requires job.serial == serial == |accepted|
      modifies this
      ensures View() == Enqueue(old(View()), job) && serial == |accepted| && busy == old(busy)
    {
      serial, accepted := serial + 1, accepted + [job];
      if job.lane.Background? {
        background := background + [job];
      } else {
        interactive := interactive + [job];
      }
    }

    method Answer(job: Job, reply: Reply)
      modifies this
      ensures View() == Finish(old(View()), job, reply) && serial == old(serial)
    {
      answers := answers + [Daemon.Answer(job.serial, reply)];
      Write(job.socket, Final(job.id, reply));
    }

    /** An embed between its chunks: stopped if cancelled, else back in its lane. */
    method Yield(job: Job)
      modifies this
      ensures View() == (var s := old(View()); if IsCancelled(s, job) then Daemon.Drop(s, job) else Requeue(s, job))
      ensures serial == old(serial)
    {
      var held := if job.socket in cancelled then cancelled[job.socket] else {};
      if job.id in held {
        dropped := dropped + [job.serial];
        return;
      }
      Write(job.socket, Requeued(job.id));
      if job.lane.Interactive? {
        interactive := interactive + [job];
      } else {
        background := [job] + background;
      }
    }

    /** The awaited handler call settles: the rest of `step`. */
    method EndOfStep(result: Settled)
      requires running.Some?
      modifies this
      ensures View() == Conclude(handlers, old(View()), result) && serial == old(serial)
    {
      var job := running.value;
      running := None;
      match result
      case Threw(error) => Answer(job, Failed(error));
      case Returned(value) =>
        if job.work.Whole? {
          Answer(job, Value(value));
        } else {
          job := Advance(handlers, job);
          if job.offset >= |job.work.texts| {
            Answer(job, Vectors(job.vectors));
          } else {
            Yield(job);
          }
        }
    }

    method OnSettled(result: Settled)
      requires Valid() && busy
      modifies this
      ensures View() == EndStep(handlers, old(View()), result) && Valid()
    {
      ghost var before := View();
      ConcludeKeeps(handlers, before, result);
      NextKeeps(handlers, Conclude(handlers, before, result));
      Daemon.ConcludeAccepts(handlers, before, result);
      hide Conclude, Core;
      EndOfStep(result);
      Pump();
    }

    method OnClose(socket: Socket)
      requires Valid()
      modifies this
      ensures View() == Apply(handlers, old(View()), Disconnected(socket)) && Valid()
    {
      ApplyKeeps(handlers, View(), Disconnected(socket));
      destroyed := destroyed + {socket};
    }

    /** Any event: the object's whole state moves exactly as the run of module Daemon does. */
    method Handle(e: Event)
      requires Valid()
      modifies this
      ensures View() == Apply(handlers, old(View()), e) && Valid()
    {
      match e
      case Arrived(socket, request) =>
        if socket !in destroyed {
          OnRequest(socket, request);
        }
      case StepSettled(result) =>
        if busy {
          OnSettled(result);
        }
      case Disconnected(socket) =>
        OnClose(socket);
    }
  }

  lemma NextOfNothing(s: Server)
    requires s.running.None? && s.interactive == [] && s.background == []
    ensures Next(s) == s
  {
  }

  lemma NextOfShifted(s: Server, rest: Server, job: Job)
    requires s.running.None? && Shifted(s, rest, job)
    ensures rest.running.None? && rest == s.(interactive := rest.interactive, background := rest.background)
    ensures |rest.interactive| + |rest.background| < |s.interactive| + |s.background|
    ensures Next(s) == if Live(s, job) then Begin(rest, job) else Next(Daemon.Drop(rest, job))
  {
    hide Begin;
  }
}
