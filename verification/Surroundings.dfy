/** The mutable world around a tree: user code and clock (an oracle), what the Inspector was
    told, the boards' callback tables, and the dirty flags those callbacks set. */
module Surroundings {
  import opened Worlds

  class Stage {
    const env: Env
    var trace: seq<Event>
    var notes: seq<Note>
    var subs: map<Uid, set<Board>>
    var dirty: set<Uid>

    constructor (env: Env, trace: seq<Event>, notes: seq<Note>, subs: map<Uid, set<Board>>, dirty: set<Uid>)
      ensures Value() == World(env, trace, notes, subs, dirty)
    {
      this.env, this.trace, this.notes, this.subs, this.dirty := env, trace, notes, subs, dirty;
    }

    ghost function Value(): World
      reads this
    {
      World(env, trace, notes, subs, dirty)
    }

    /** A board's `set`: each callback registered on it marks its node dirty. */
    method DoWrite(boards: set<Board>)
      modifies this`dirty
      ensures Value() == Write(old(Value()), boards)
    {
      dirty := dirty + set u | u in subs && subs[u] * boards != {};
    }

    method CallLeaf(u: Uid, hook: Hook) returns (r: Result)
      modifies this
      ensures Value() == Call(old(Value()), u, hook) && r == CallReply(old(Value()), u, hook).result
    {
      var reply := env.reply(trace, u, hook);
      r := reply.result;
      trace := trace + [Called(u, hook, r)];
      DoWrite(reply.writes);
    }

    method CallOnHalted(u: Uid)
      modifies this
      ensures Value() == CallHalted(old(Value()), u)
    {
      var boards := env.onHalted(trace, u);
      trace := trace + [Halted(u)];
      DoWrite(boards);
    }

    method Monotonic(u: Uid) returns (now: real)
      modifies this
      ensures Value() == ReadClock(old(Value()), u) && now == Now(old(Value()))
    {
      now := env.clock(trace);
      trace := trace + [ClockRead(u)];
    }

    method DoSubscribe(u: Uid, boards: set<Board>)
      modifies this
      ensures Value() == Subscribe(old(Value()), u, boards)
    {
      if u !in subs && boards != {} {
        subs := subs[u := boards];
      }
    }

    method DoUnsubscribe(u: Uid)
      modifies this
      ensures Value() == Unsubscribe(old(Value()), u)
    {
      subs := subs - {u};
    }

    method MarkDirty(u: Uid)
      modifies this
      ensures Value() == SetDirty(old(Value()), u)
    {
      dirty := dirty + {u};
    }

    method MarkClean(u: Uid)
      modifies this
      ensures Value() == ClearDirty(old(Value()), u)
    {
      dirty := dirty - {u};
    }

    method Notify(note: Note)
      modifies this
      ensures Value() == Tell(old(Value()), note)
    {
      notes := notes + [note];
    }
  }
}
