/** The host side of a shared terminal: what late joiners are sent, and who may
    resize the grid. */
module LiveReplay {
  import opened Wrappers

  type User = nat
  type Byte = bv8
  type Bytes = seq<Byte>

  const REPLAY_BYTES: nat := 131072

  datatype Size = Size(cols: nat, rows: nat)

  datatype Command =
    | Output(bytes: Bytes)
    | Resize(size: Size)
    | Title(title: string)
    | Typing
    | Control(user: User, enabled: bool)

  /** Frames from viewers that opened, and what the relay says. */
  datatype Incoming =
    | InputFrame(bytes: Bytes)
    | TypingFrame(user: User)
    | ResizeFrame(user: User, cols: nat, rows: nat)
    | Participants(list: seq<(User, bool)>)
    | Other

  datatype Event = Cmd(command: Command) | Inc(incoming: Incoming)

  /** What the host sends, in order. */
  datatype Sent =
    | ToAll(bytes: Bytes)
    | MetaToAll(size: Size, title: string)
    | TypingToAll(user: User)
    | ControlNote(user: User, enabled: bool)
    | MetaTo(user: User, size: Size, title: string)
    | ReplayTo(user: User, bytes: Bytes)

  /** The output viewer `u` has from its first direct frame on, over a relay
      that neither loses nor reorders; `None` before that frame. */
  function Got(sent: seq<Sent>, u: User): Option<Bytes> {
    if sent == [] then None
    else
      var before := Got(sent[..|sent| - 1], u);
      match sent[|sent| - 1]
      case MetaTo(user, _, _) => if user == u && before.None? then Some([]) else before
      case ReplayTo(user, b) => if user == u then Some((if before.Some? then before.value else []) + b) else before
      case ToAll(b) => if before.Some? then Some(before.value + b) else None
      case _ => before
  }

  lemma GotNext(sent: seq<Sent>, f: Sent, u: User)
    ensures Got(sent + [f], u) ==
      match f
      case MetaTo(user, _, _) => if user == u && Got(sent, u).None? then Some([]) else Got(sent, u)
      case ReplayTo(user, b) => if user == u then Some((if Got(sent, u).Some? then Got(sent, u).value else []) + b)
        else Got(sent, u)
      case ToAll(b) => if Got(sent, u).Some? then Some(Got(sent, u).value + b) else None
      case _ => Got(sent, u)
  {
    assert (sent + [f])[..|sent|] == sent;
  }

  /** The last control command for `u` let it write. */
  function MayControl(log: seq<(User, bool)>, u: User): bool {
    if log == [] then false
    else if log[|log| - 1].0 == u then log[|log| - 1].1
    else MayControl(log[..|log| - 1], u)
  }

  /** A grid has at least two columns and one row. */
  function Clamped(cols: nat, rows: nat): (r: Size)
    ensures r.cols >= 2 && r.cols >= cols && (r.cols == 2 || r.cols == cols)
    ensures r.rows >= 1 && r.rows >= rows && (r.rows == 1 || r.rows == rows)
  {
    Size(if cols < 2 then 2 else cols, if rows < 1 then 1 else rows)
  }

  /** What one event does to the grid, the control commands so far being `log`. */
  function SizeAfter(size: Size, log: seq<(User, bool)>, e: Event): Size {
    match e
    case Cmd(Resize(s)) => s
    case Inc(ResizeFrame(u, cols, rows)) => if MayControl(log, u) then Clamped(cols, rows) else size
    case _ => size
  }

  function GridOf(size: Size, log: seq<(User, bool)>, events: seq<Event>): Size {
    if events == [] then size
    else
      var n := |events| - 1;
      SizeAfter(GridOf(size, log, events[..n]), log + ControlsOf(events[..n]), events[n])
  }

  function Min(a: nat, b: nat): nat { if a < b then a else b }

  /** The last bytes of `s`, at most as many as a replay holds. */
  function Recent(s: Bytes): Bytes { s[|s| - Min(|s|, REPLAY_BYTES)..] }

  lemma RecentGrows(s: Bytes, b: Bytes)
    ensures
      var long := Recent(s) + b;
      Recent(s + b) == if |long| > REPLAY_BYTES then long[|long| - REPLAY_BYTES..] else long
  {
    var long := Recent(s) + b;
    if |s| <= REPLAY_BYTES {
      assert long == s + b;
    } else {
      assert long == (s + b)[|s| - REPLAY_BYTES..];
    }
  }

  /** A viewer holds everything from at most a replay before it was first seen. */
  ghost predicate Gapless(output: Bytes, seenAt: map<User, nat>, sent: seq<Sent>, u: User) {
    && u in seenAt && seenAt[u] <= |output|
    && Got(sent, u) == Some(output[seenAt[u] - Min(seenAt[u], REPLAY_BYTES)..])
  }

  /** What goes to everybody, put together. */
  function Heard(sent: seq<Sent>): Bytes {
    if sent == [] then []
    else Heard(sent[..|sent| - 1]) + match sent[|sent| - 1] case ToAll(b) => b case _ => []
  }

  lemma HeardNext(sent: seq<Sent>, f: Sent)
    ensures Heard(sent + [f]) == Heard(sent) + match f case ToAll(b) => b case _ => []
  {
    assert (sent + [f])[..|sent|] == sent;
  }

  /** Who was listed when the host joined hears everything as it goes out and
      is sent nothing directly; who came later has it without a gap. */
  ghost predicate Views(output: Bytes, seenAt: map<User, nat>, sent: seq<Sent>, seen: set<User>, initial: set<User>) {
    && initial <= seen && Heard(sent) == output
    && (forall u :: u in seen && u !in initial ==> Gapless(output, seenAt, sent, u))
    && (forall u :: u !in seen || u in initial ==> Got(sent, u) == None)
  }

  lemma OutputKeepsViews(output: Bytes, seenAt: map<User, nat>, sent: seq<Sent>, seen: set<User>, initial: set<User>,
    b: Bytes)
    requires Views(output, seenAt, sent, seen, initial)
    ensures Views(output + b, seenAt, sent + [ToAll(b)], seen, initial)
  {
    HeardNext(sent, ToAll(b));
    forall u
      ensures u in seen && u !in initial ==> Gapless(output + b, seenAt, sent + [ToAll(b)], u)
      ensures u !in seen || u in initial ==> Got(sent + [ToAll(b)], u) == None
    {
      GotNext(sent, ToAll(b), u);
      if u in seen && u !in initial {
        assert Gapless(output, seenAt, sent, u);
        SuffixGrows(output, b, seenAt[u] - Min(seenAt[u], REPLAY_BYTES));
      }
    }
  }

  lemma QuietKeepsViews(output: Bytes, seenAt: map<User, nat>, sent: seq<Sent>, seen: set<User>, initial: set<User>,
    f: Sent)
    requires Views(output, seenAt, sent, seen, initial) && (f.MetaToAll? || f.TypingToAll? || f.ControlNote?)
    ensures Views(output, seenAt, sent + [f], seen, initial)
  {
    HeardNext(sent, f);
    forall u
      ensures Got(sent + [f], u) == Got(sent, u)
    {
      GotNext(sent, f, u);
    }
    forall u | u in seen && u !in initial
      ensures Gapless(output, seenAt, sent + [f], u)
    {
      assert Gapless(output, seenAt, sent, u);
    }
  }

  /** The frames a viewer is greeted with. */
  function Greeting(u: User, size: Size, title: string, replay: Bytes): seq<Sent> {
    [MetaTo(u, size, title)] + if replay == [] then [] else [ReplayTo(u, replay)]
  }

  lemma GreetedGot(sent: seq<Sent>, u: User, size: Size, title: string, replay: Bytes, x: User)
    requires Got(sent, u) == None
    ensures Got(sent + Greeting(u, size, title, replay), x) == if x == u then Some(replay) else Got(sent, x)
  {
    var f, g := MetaTo(u, size, title), ReplayTo(u, replay);
    GotNext(sent, f, x);
    GotNext(sent + [f], g, x);
    assert [] + replay == replay;
    assert sent + Greeting(u, size, title, replay) == if replay == [] then sent + [f] else (sent + [f]) + [g];
  }

  lemma GreetingIsDirect(sent: seq<Sent>, u: User, size: Size, title: string, replay: Bytes)
    ensures Heard(sent + Greeting(u, size, title, replay)) == Heard(sent)
  {
    var f, g := MetaTo(u, size, title), ReplayTo(u, replay);
    HeardNext(sent, f);
    HeardNext(sent + [f], g);
    assert sent + Greeting(u, size, title, replay) == if replay == [] then sent + [f] else (sent + [f]) + [g];
  }

  lemma GreetKeepsViews(output: Bytes, seenAt: map<User, nat>, sent: seq<Sent>, seen: set<User>, initial: set<User>,
    u: User, size: Size, title: string)
    requires Views(output, seenAt, sent, seen, initial) && u !in seen
    ensures Views(output, seenAt[u := |output|], sent + Greeting(u, size, title, Recent(output)), seen + {u}, initial)
  {
    var now := sent + Greeting(u, size, title, Recent(output));
    forall x
      ensures Got(now, x) == if x == u then Some(Recent(output)) else Got(sent, x)
    {
      GreetedGot(sent, u, size, title, Recent(output), x);
    }
    GreetingIsDirect(sent, u, size, title, Recent(output));
    forall x | x in seen && x !in initial
      ensures Gapless(output, seenAt[u := |output|], now, x)
    {
      assert Gapless(output, seenAt, sent, x);
    }
  }

  lemma NothingSent(initial: set<User>)
    ensures Views([], map[], [], initial, initial) && Recent([]) == [] && forall u :: !MayControl([], u)
  {
  }

  class HostLoop {
    const me: User
    /** Who the relay listed when the host joined. */
    const initial: set<User>
    var replay: Bytes
    var seen: set<User>
    var controllers: set<User>
    var size: Size
    var title: string
    ghost var sent: seq<Sent>
    /** Everything the terminal put out. */
    ghost var output: Bytes
    /** How much had been put out when a viewer was first seen. */
    ghost var seenAt: map<User, nat>
    /** The control commands, oldest first. */
    ghost var log: seq<(User, bool)>

    ghost predicate Valid()
      reads this
    {
      && replay == Recent(output)
      && Views(output, seenAt, sent, seen, initial)
      && (forall u :: u in controllers <==> MayControl(log, u))
    }

    constructor (me: User, initial: set<User>, size: Size, title: string)
      ensures Valid() && output == [] && seen == initial && log == [] && this.size == size && this.initial == initial
    {
      this.me, this.initial, this.size, this.title := me, initial, size, title;
      replay, seen, controllers := [], initial, {};
      sent, output, seenAt, log := [], [], map[], [];
      new;
      NothingSent(initial);
      hide Views, Recent, MayControl;
    }

    /** Send a frame that carries no output. */
    method SendQuiet(ghost f: Sent)
      requires Valid() && (f.MetaToAll? || f.TypingToAll? || f.ControlNote?)
      modifies this`sent
      ensures Valid() && sent == old(sent) + [f]
    {
      QuietKeepsViews(output, seenAt, sent, seen, initial, f);
      sent := sent + [f];
    }

    /** Output goes to everybody and into the replay, of which the newest part is kept. */
    method HandleOutput(b: Bytes)
      requires Valid()
      modifies this`replay, this`sent, this`output
      ensures Valid() && output == old(output) + b && sent == old(sent) + [ToAll(b)]
    {
      RecentGrows(output, b);
      replay := replay + b;
      if |replay| > REPLAY_BYTES {
        var cut := |replay| - REPLAY_BYTES;
        replay := replay[cut..];
      }
      OutputKeepsViews(output, seenAt, sent, seen, initial, b);
      sent, output := sent + [ToAll(b)], output + b;
    }

    method HandleCommand(c: Command)
      requires Valid()
      modifies this
      ensures Valid() && seen == old(seen) && (c.Output? ==> output == old(output) + c.bytes) &&
          (!c.Output? ==> output == old(output))
      ensures log == if c.Control? then old(log) + [(c.user, c.enabled)] else old(log)
      ensures size == SizeAfter(old(size), old(log), Cmd(c)) && title == if c.Title? then c.title else old(title)
      ensures match c
        case Output(b) => sent == old(sent) + [ToAll(b)]
        case Typing => sent == old(sent) + [TypingToAll(me)]
        case Control(user, enabled) => sent == old(sent) + [ControlNote(user, enabled)]
        case _ => sent == old(sent) + [MetaToAll(size, title)]
    {
      match c
      case Output(b) => HandleOutput(b);
      case Resize(s) =>
        size := s;
        SendQuiet(MetaToAll(size, title));
      case Title(t) =>
        title := t;
        SendQuiet(MetaToAll(size, title));
      case Typing => SendQuiet(TypingToAll(me));
      case Control(user, enabled) =>
        controllers := if enabled then controllers + {user} else controllers - {user};
        assert (log + [(user, enabled)])[..|log|] == log;
        log := log + [(user, enabled)];
        SendQuiet(ControlNote(user, enabled));
    }

    /** The grid follows whoever holds control, and nobody else. */
    method HandleResize(user: User, cols: nat, rows: nat)
      requires Valid()
      modifies this`size, this`sent
      ensures Valid()
      ensures size == if MayControl(log, user) then Clamped(cols, rows) else old(size)
      ensures sent == if size == old(size) then old(sent) else old(sent) + [MetaToAll(size, title)]
    {
      var wanted := Clamped(cols, rows);
      if user in controllers && size != wanted {
        size := wanted;
        SendQuiet(MetaToAll(size, title));
      }
    }

    /** A viewer seen for the first time gets the grid and the recent output; one seen before gets nothing. */
    method Greet(u: User)
      requires Valid()
      modifies this`seen, this`sent, this`seenAt
      ensures Valid() && seen == old(seen) + {u}
      ensures u in old(seen) ==> sent == old(sent)
      ensures u !in old(seen) ==> seenAt == old(seenAt)[u := |output|]
      ensures u !in old(seen) ==>
        sent == old(sent) + [MetaTo(u, size, title)] + if replay == [] then [] else [ReplayTo(u, replay)]
    {
      if u in seen { return; }
      hide Views, Recent, MayControl;
      GreetKeepsViews(output, seenAt, sent, seen, initial, u, size, title);
      seen := seen + {u};
      sent := sent + [MetaTo(u, size, title)];
      if replay != [] {
        sent := sent + [ReplayTo(u, replay)];
      }
      assert sent == old(sent) + Greeting(u, size, title, replay);
      seenAt := seenAt[u := |output|];
    }

    /** Everybody listed but the host is greeted. */
    method HandleParticipants(list: seq<(User, bool)>)
      requires Valid()
      modifies this`seen, this`sent, this`seenAt
      ensures Valid() && old(seen) <= seen
      ensures forall u :: u in seen <==> u in old(seen) || (u, false) in list
    {
      for i := 0 to |list|
        invariant Valid() && old(seen) <= seen
        invariant forall u :: u in seen <==> u in old(seen) || (u, false) in list[..i]
      {
        if !list[i].1 { Greet(list[i].0); }
        assert list[..i + 1] == list[..i] + [list[i]];
      }
      assert list[..|list|] == list;
    }

    method HandleIncoming(inc: Incoming)
      requires Valid()
      modifies this
      ensures Valid() && output == old(output) && log == old(log) && old(seen) <= seen
      ensures size == SizeAfter(old(size), log, Inc(inc)) && title == old(title)
      ensures match inc
        case TypingFrame(user) => sent == if user in seen then old(sent) + [TypingToAll(user)] else old(sent)
        case ResizeFrame(_, _, _) =>
          sent == if size == old(size) then old(sent) else old(sent) + [MetaToAll(size, title)]
        case Participants(list) => forall u :: u in seen <==> u in old(seen) || (u, false) in list
        case _ => sent == old(sent) && seen == old(seen)
    {
      match inc
      case TypingFrame(user) => if user in seen { SendQuiet(TypingToAll(user)); }
      case ResizeFrame(user, cols, rows) => HandleResize(user, cols, rows);
      case Participants(list) => HandleParticipants(list);
      case _ =>
    }

    method Handle(e: Event)
      requires Valid()
      modifies this
      ensures Valid() && old(seen) <= seen
      ensures output == old(output) + EventOutput(e) && log == old(log) + EventControls(e)
      ensures size == SizeAfter(old(size), old(log), e)
    {
      hide Views, Recent, MayControl;
      match e
      case Cmd(c) => HandleCommand(c);
      case Inc(inc) => HandleIncoming(inc);
    }

    /** Every run keeps every viewer gap-free, and the grid is what the host and
        those whose last control command enabled them made it. */
    method Run(events: seq<Event>)
      requires Valid()
      modifies this
      ensures Valid() && old(seen) <= seen
      ensures output == old(output) + OutputOf(events) && log == old(log) + ControlsOf(events)
      ensures size == GridOf(old(size), old(log), events)
    {
      hide Views, Recent, MayControl, EventOutput, EventControls, SizeAfter;
      for i := 0 to |events|
        invariant Valid() && old(seen) <= seen
        invariant output == old(output) + OutputOf(events[..i]) && log == old(log) + ControlsOf(events[..i])
        invariant size == GridOf(old(size), old(log), events[..i])
      {
        Handle(events[i]);
        OneMoreEvent(old(output), old(log), events, i);
        assert events[..i + 1][..i] == events[..i];
      }
      assert events[..|events|] == events;
    }
  }

  /** Which events set the grid: the host's own, and a resize by a user whose
      last control command before it enabled that user. */
  predicate SetsGrid(log: seq<(User, bool)>, events: seq<Event>, k: nat)
    requires k < |events|
  {
    match events[k]
    case Cmd(Resize(_)) => true
    case Inc(ResizeFrame(u, _, _)) => MayControl(log + ControlsOf(events[..k]), u)
    case _ => false
  }

  /** The grid an event asks for. */
  function Wanted(e: Event): Size {
    match e
    case Cmd(Resize(s)) => s
    case Inc(ResizeFrame(_, cols, rows)) => Clamped(cols, rows)
    case _ => Size(0, 0)
  }

  /** The grid after a run is the one last set, or the one there was. */
  lemma {:induction false} GridIsLastSet(size: Size, log: seq<(User, bool)>, events: seq<Event>, k: nat)
    requires k <= |events| && forall j :: k <= j < |events| ==> !SetsGrid(log, events, j)
    requires k > 0 ==> SetsGrid(log, events, k - 1)
    ensures GridOf(size, log, events) == if k == 0 then size else Wanted(events[k - 1])
    decreases |events|
  {
    if events != [] {
      var n := |events| - 1;
      if k <= n {
        forall j | 0 <= j < n
          ensures SetsGrid(log, events[..n], j) == SetsGrid(log, events, j)
        {
          assert events[..n][..j] == events[..j];
        }
        GridIsLastSet(size, log, events[..n], k);
        assert !SetsGrid(log, events, n);
      }
    }
  }

  function EventOutput(e: Event): Bytes { match e case Cmd(Output(b)) => b case _ => [] }

  function EventControls(e: Event): seq<(User, bool)> {
    match e case Cmd(Control(u, enabled)) => [(u, enabled)] case _ => []
  }

  function OutputOf(events: seq<Event>): Bytes {
    if events == [] then [] else OutputOf(events[..|events| - 1]) + EventOutput(events[|events| - 1])
  }

  function ControlsOf(events: seq<Event>): seq<(User, bool)> {
    if events == [] then [] else ControlsOf(events[..|events| - 1]) + EventControls(events[|events| - 1])
  }

  lemma OneMoreEvent(output: Bytes, log: seq<(User, bool)>, events: seq<Event>, i: nat)
    requires i < |events|
    ensures (output + OutputOf(events[..i])) + EventOutput(events[i]) == output + OutputOf(events[..i + 1])
    ensures (log + ControlsOf(events[..i])) + EventControls(events[i]) == log + ControlsOf(events[..i + 1])
  {
    assert events[..i + 1][..i] == events[..i];
  }

  lemma SuffixGrows(s: Bytes, b: Bytes, k: nat)
    requires k <= |s|
    ensures s[k..] + b == (s + b)[k..]
  {
  }
}
