/** Statuses, the node kinds of the library, and the world a tick acts on.

    A leaf's user code is an oracle: its reply may depend on everything that has
    been called so far, but on nothing else.  Two runs that make the same calls in
    the same order therefore get the same replies. */
module Worlds {

  datatype Option<+T> = None | Some(value: T)

  datatype Status = Idle | Running | Success | Failure

  /** What a tick may return: IDLE is a resting state, never a result. */
  type Result = s: Status | s != Idle witness Failure

  /** The two results that end an activation. */
  type Final = s: Status | s == Success || s == Failure witness Failure

  type Uid = int
  type Board = int

  /** The three ways user code in a leaf is entered by a tick. */
  datatype Hook = Plain | Start | Resume

  /** One call into user code, or one reading of the clock. */
  datatype Event =
    | Called(uid: Uid, hook: Hook, result: Result)
    | Halted(uid: Uid)
    | ClockRead(uid: Uid)

  /** What the Inspector is told: node ticks and halts of RUNNING nodes. */
  datatype Note =
    | Ticked(uid: Uid, result: Result)
    | Stopped(uid: Uid)

  datatype Reply = Reply(result: Result, writes: set<Board>)

  /** The environment: replies of leaves, boards written by their halt hooks, the clock. */
  datatype Env = Env(
    reply: (seq<Event>, Uid, Hook) -> Reply,
    onHalted: (seq<Event>, Uid) -> set<Board>,
    clock: seq<Event> -> real)

  /** `subs[u]` are the boards reactive node `u` is subscribed to (no entry: none);
      `dirty` holds the reactive nodes whose dirty flag is set. */
  datatype World = World(
    env: Env,
    trace: seq<Event>,
    notes: seq<Note>,
    subs: map<Uid, set<Board>>,
    dirty: set<Uid>)

  // ----- user code and the clock ------------------------------------------

  /** A write to each of these boards reaches exactly the subscribers of those boards. */
  function Write(w: World, boards: set<Board>): World {
    w.(dirty := w.dirty + set u | u in w.subs && w.subs[u] * boards != {})
  }

  function CallReply(w: World, u: Uid, hook: Hook): Reply {
    w.env.reply(w.trace, u, hook)
  }

  function Call(w: World, u: Uid, hook: Hook): World {
    var reply := CallReply(w, u, hook);
    Write(w.(trace := w.trace + [Called(u, hook, reply.result)]), reply.writes)
  }

  function CallHalted(w: World, u: Uid): World {
    Write(w.(trace := w.trace + [Halted(u)]), w.env.onHalted(w.trace, u))
  }

  function Now(w: World): real {
    w.env.clock(w.trace)
  }

  function ReadClock(w: World, u: Uid): World {
    w.(trace := w.trace + [ClockRead(u)])
  }

  // ----- subscriptions and the dirty flag ----------------------------------

  /** Does nothing when already subscribed, or when there is no board to subscribe to. */
  function Subscribe(w: World, u: Uid, boards: set<Board>): World {
    if u in w.subs || boards == {} then w else w.(subs := w.subs[u := boards])
  }

  function Unsubscribe(w: World, u: Uid): World {
    w.(subs := w.subs - {u})
  }

  function SetDirty(w: World, u: Uid): World {
    w.(dirty := w.dirty + {u})
  }

  function ClearDirty(w: World, u: Uid): World {
    w.(dirty := w.dirty - {u})
  }

  function Tell(w: World, note: Note): World {
    w.(notes := w.notes + [note])
  }
}
