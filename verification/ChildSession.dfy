/** The request gate and the shutdown of one child session
    (internal/mcp/child_session.go:74-162) as a protocol.  A caller takes the one token,
    looks at `closed` under the state mutex, and writes after releasing that mutex; closing
    takes no token, so it may come between the look and the write. */
module ChildSession {
  import opened Wrappers

  type Caller = nat

  /** Where the holder of the token stands. */
  datatype Stage = Free | Holding(c: Caller) | Checked(c: Caller) | Awaiting(c: Caller, id: nat)

  /** A request on the wire, and whether the session was closed when it was written. */
  datatype Line = Line(caller: Caller, id: nat, afterClose: bool)

  /** `tearing` says that a close has set the flag and not yet taken the child down, and
      `readers` are the requests whose reader is still on the stream. */
  datatype State = State(
    stage: Stage, nextId: nat, closed: bool, tearing: bool, killed: bool,
    written: seq<Line>, readers: set<nat>)

  datatype Action =
    | Enter(c: Caller)
    | Check(c: Caller)
    | Write(c: Caller, ok: bool)
    | Receive(c: Caller)
    | GiveUp(c: Caller)
    | DropReader(id: nat)
    | Close
    | TearDown

  function Initial(): State {
    State(Free, 1, false, false, false, [], {})
  }

  predicate Enabled(s: State, a: Action) {
    match a
    case Enter(_) => s.stage.Free?
    case Check(c) => s.stage == Holding(c)
    case Write(c, _) => s.stage == Checked(c)
    case Receive(c) => s.stage.Awaiting? && s.stage.c == c
    case GiveUp(c) => s.stage.Awaiting? && s.stage.c == c
    case DropReader(id) => id in s.readers && !(s.stage.Awaiting? && s.stage.id == id)
    case Close => true
    case TearDown => s.tearing
  }

  function Next(s: State, a: Action): State
    requires Enabled(s, a)
  {
    match a
    case Enter(c) => s.(stage := Holding(c))
    case Check(c) => s.(stage := if s.closed then Free else Checked(c))
    case Write(c, ok) =>
      var t := s.(nextId := s.nextId + 1);
      if !ok then t.(stage := Free)
      else t.(stage := Awaiting(c, s.nextId), readers := s.readers + {s.nextId},
              written := s.written + [Line(c, s.nextId, s.closed)])
    case Receive(_) => s.(stage := Free, readers := s.readers - {s.stage.id})
    case GiveUp(_) => s.(stage := Free, killed := true)
    case DropReader(id) => s.(readers := s.readers - {id})
    case Close => if s.closed then s else s.(closed := true, tearing := true)
    case TearDown => s.(tearing := false, killed := true)
  }

  ghost predicate Inv(s: State) {
    && (forall i, j | 0 <= i < j < |s.written| :: s.written[i].id < s.written[j].id)
    && (forall i | 0 <= i < |s.written| :: s.written[i].id < s.nextId)
    && (s.stage.Awaiting? ==>
          && s.written != []
          && s.written[|s.written| - 1].id == s.stage.id && s.written[|s.written| - 1].caller == s.stage.c)
    && (s.stage.Awaiting? ==> s.stage.id in s.readers)
    && (!s.killed ==> s.readers == if s.stage.Awaiting? then {s.stage.id} else {})
    && (s.tearing ==> s.closed) && (s.closed && !s.tearing ==> s.killed)
  }

  lemma StepKeepsInv(s: State, a: Action)
    requires Inv(s) && Enabled(s, a)
    ensures Inv(Next(s, a))
  {
  }

  // ------------------------------------------------------------------ whole runs

  ghost predicate IsRun(states: seq<State>, actions: seq<Action>) {
    && |states| == |actions| + 1
    && states[0] == Initial()
    && forall i | 0 <= i < |actions| :: Enabled(states[i], actions[i]) && states[i + 1] == Next(states[i], actions[i])
  }

  lemma {:induction false} RunKeepsInv(states: seq<State>, actions: seq<Action>, i: nat)
    requires IsRun(states, actions) && i < |states|
    ensures Inv(states[i])
  {
    if i > 0 {
      RunKeepsInv(states, actions, i - 1);
      StepKeepsInv(states[i - 1], actions[i - 1]);
    }
  }

  /** In every interleaving, while the child has not been killed at most one reader is on its
      stream; it reads for the last request written, whose caller holds the token. */
  lemma OneReaderUntilKilled(states: seq<State>, actions: seq<Action>, i: nat, id: nat)
    requires IsRun(states, actions) && i < |states| && !states[i].killed && id in states[i].readers
    ensures states[i].readers == {id} && states[i].stage.Awaiting?
    ensures var s := states[i];
      s.written != [] && s.written[|s.written| - 1] == Line(s.stage.c, id, s.written[|s.written| - 1].afterClose)
  {
    RunKeepsInv(states, actions, i);
  }

  /** After a kill that is no longer so: the next caller finds the session not closed, and the
      reader of the caller that gave up may still be on the stream. */
  lemma TwoReadersAfterAKill() returns (states: seq<State>, actions: seq<Action>)
    ensures IsRun(states, actions) && |actions| == 7
    ensures !states[7].closed && states[7].readers == {1, 2}
  {
    var first := State(Awaiting(0, 1), 2, false, false, false, [Line(0, 1, false)], {1});
    var dead := first.(stage := Free, killed := true);
    states := [Initial(), Initial().(stage := Holding(0)), Initial().(stage := Checked(0)), first, dead,
      dead.(stage := Holding(1)), dead.(stage := Checked(1)),
      State(Awaiting(1, 2), 3, false, false, true, [Line(0, 1, false), Line(1, 2, false)], {1, 2})];
    actions := [Enter(0), Check(0), Write(0, true), GiveUp(0), Enter(1), Check(1), Write(1, true)];
  }

  /** No id is written twice, over the whole run. */
  lemma IdsAreFresh(states: seq<State>, actions: seq<Action>, i: nat)
    requires IsRun(states, actions) && i < |states|
    ensures forall j, k | 0 <= j < k < |states[i].written| :: states[i].written[j].id != states[i].written[k].id
  {
    RunKeepsInv(states, actions, i);
  }

  /** A response that is received is that of the caller's own request. */
  lemma ResponseIsTheCallers(states: seq<State>, actions: seq<Action>, i: nat, c: Caller)
    requires IsRun(states, actions) && i < |actions| && actions[i] == Receive(c)
    ensures var s := states[i]; s.written != [] && s.written[|s.written| - 1].caller == c && states[i + 1].stage.Free?
    ensures states[i].readers - states[i + 1].readers == {states[i].written[|states[i].written| - 1].id}
  {
    RunKeepsInv(states, actions, i);
  }

  // ------------------------------------------------------------------- closing

  lemma {:induction false} ClosedStays(states: seq<State>, actions: seq<Action>, i: nat, j: nat)
    requires IsRun(states, actions) && i <= j < |states|
    ensures states[i].closed ==> states[j].closed
    ensures states[i].closed && !states[i].tearing ==> !states[j].tearing
  {
    if i < j {
      ClosedStays(states, actions, i, j - 1);
      assert states[j] == Next(states[j - 1], actions[j - 1]);
    }
  }

  /** However many calls close the session, the child is taken down once. */
  lemma TakenDownOnce(states: seq<State>, actions: seq<Action>, i: nat, j: nat)
    requires IsRun(states, actions) && i < j < |actions|
    requires actions[i].TearDown?
    ensures !actions[j].TearDown?
  {
    RunKeepsInv(states, actions, i);
    ClosedStays(states, actions, i + 1, j);
  }

  /** And of two closes the later does nothing. */
  lemma CloseIsIdempotent(states: seq<State>, actions: seq<Action>, i: nat, j: nat)
    requires IsRun(states, actions) && i < j < |actions| && actions[i].Close? && actions[j].Close?
    ensures states[j + 1] == states[j]
  {
    ClosedStays(states, actions, i + 1, j);
  }

  ghost predicate FirstClose(states: seq<State>, actions: seq<Action>, k: nat)
    requires k < |actions| && k < |states|
  {
    actions[k].Close? && !states[k].closed
  }

  lemma {:induction false} ClosedByFirstClose(states: seq<State>, actions: seq<Action>, i: nat, j: nat)
    requires IsRun(states, actions) && i <= j < |states| && !states[i].closed
    ensures states[j].closed <==> exists k | i <= k < j :: FirstClose(states, actions, k)
  {
    if i < j {
      ClosedByFirstClose(states, actions, i, j - 1);
      assert states[j] == Next(states[j - 1], actions[j - 1]);
      if states[j].closed && !states[j - 1].closed { assert FirstClose(states, actions, j - 1); }
      if k :| i <= k < j && FirstClose(states, actions, k) {
        assert states[k + 1] == Next(states[k], actions[k]);
        ClosedStays(states, actions, k + 1, j);
      }
    }
  }

  /** The look at `closed` that let a caller get as far as writing. */
  lemma {:induction false} CheckedEarlier(states: seq<State>, actions: seq<Action>, j: nat, c: Caller) returns (i: nat)
    requires IsRun(states, actions) && j < |states| && states[j].stage == Checked(c)
    ensures i < j && actions[i] == Check(c) && !states[i].closed
    ensures forall k | i < k <= j :: states[k].stage == Checked(c)
  {
    assert j > 0 && states[j] == Next(states[j - 1], actions[j - 1]);
    if states[j - 1].stage == Checked(c) {
      i := CheckedEarlier(states, actions, j - 1, c);
    } else {
      i := j - 1;
    }
  }

  /** A request is written on a session that is closed already exactly when the first close
      came between the caller's look and its write. */
  lemma WrittenAfterCloseIff(states: seq<State>, actions: seq<Action>, j: nat, c: Caller) returns (i: nat)
    requires IsRun(states, actions) && j < |actions| && actions[j] == Write(c, true)
    ensures i < j && actions[i] == Check(c) && forall k | i < k <= j :: states[k].stage == Checked(c)
    ensures states[j + 1].written == states[j].written + [Line(c, states[j].nextId, states[j].closed)]
    ensures states[j].closed <==> exists k | i < k < j :: FirstClose(states, actions, k)
  {
    i := CheckedEarlier(states, actions, j, c);
    ClosedByFirstClose(states, actions, i, j);
    assert !FirstClose(states, actions, i);
  }

  /** Such a run: the flag is set while a caller stands before its write. */
  lemma AClosedSessionMayBeWrittenTo() returns (states: seq<State>, actions: seq<Action>)
    ensures IsRun(states, actions) && |actions| == 4
    ensures states[3].closed && states[4].written == [Line(0, 1, true)]
  {
    var s0 := Initial();
    var s1, s2 := s0.(stage := Holding(0)), s0.(stage := Checked(0));
    var s3 := s2.(closed := true, tearing := true);
    states := [s0, s1, s2, s3, s3.(nextId := 2, stage := Awaiting(0, 1), readers := {1},
                                   written := [Line(0, 1, true)])];
    actions := [Enter(0), Check(0), Close, Write(0, true)];
    assert Next(s0, actions[0]) == s1 && Next(s1, actions[1]) == s2 && Next(s2, actions[2]) == s3;
    assert Next(s3, actions[3]) == states[4];
  }

  // ----------------------------------------------------------- the session itself

  /** The fields of a session and what its callers do to them between two points where
      others may come in.  Each method makes one step of the protocol. */
  class Session {
    var stage: Stage
    var nextId: nat
    var closed: bool
    var tearing: bool
    var killed: bool
    ghost var written: seq<Line>
    ghost var readers: set<nat>

    constructor ()
      ensures Valid() && View() == Initial()
    {
      stage, nextId, closed, tearing, killed, written, readers := Free, 1, false, false, false, [], {};
    }

    ghost function View(): State
      reads this
    {
      State(stage, nextId, closed, tearing, killed, written, readers)
    }

    ghost predicate Valid()
      reads this
    {
      Inv(View())
    }

    method Attempt() returns (ok: bool)
    {
      ok := *;
    }

    /** Takes the token, or gives up waiting: then nothing has been written or changed. */
    method TakeToken(c: Caller) returns (taken: bool)
      requires Valid()
      modifies this`stage
      ensures Valid() && written == old(written)
      ensures taken ==> old(stage).Free? && stage == Holding(c) && View() == Next(old(View()), Enter(c))
      ensures !taken ==> stage == old(stage)
    {
      taken := Attempt();
      taken := taken && stage.Free?;
      if taken { stage := Holding(c); }
    }

    /** The first half of a request: a closed session gives the token back. */
    method CheckOpen(c: Caller) returns (open: bool)
      requires Valid() && stage == Holding(c)
      modifies this`stage
      ensures Valid() && View() == Next(old(View()), Check(c))
      ensures open == !closed && written == old(written)
      ensures stage == if open then Checked(c) else Free
    {
      open := !closed;
      stage := if open then Checked(c) else Free;
    }

    /** The second half: the id is one never written before, whatever has become of `closed`. */
    method WriteRequest(c: Caller) returns (id: Option<nat>)
      requires Valid() && stage == Checked(c)
      modifies this
      ensures Valid() && View() == Next(old(View()), Write(c, id.Some?))
      ensures id.Some? ==> stage == Awaiting(c, id.value) && forall line <- old(written) :: line.id != id.value
      ensures id.Some? ==> written == old(written) + [Line(c, id.value, closed)]
      ensures id.None? ==> stage.Free? && written == old(written) && readers == old(readers)
    {
      var number := nextId;
      nextId := nextId + 1;
      var ok := Attempt();
      if !ok {
        stage := Free;
        return None;
      }
      written, readers := written + [Line(c, number, closed)], readers + {number};
      stage, id := Awaiting(c, number), Some(number);
    }

    /** Waits for the response; when the context ends first the child is killed, and the
        reader stays on the stream of a dead child. */
    method AwaitResponse(c: Caller) returns (received: bool)
      requires Valid() && stage.Awaiting? && stage.c == c
      modifies this
      ensures Valid() && View() == Next(old(View()), if received then Receive(c) else GiveUp(c))
      ensures stage.Free? && written == old(written) && closed == old(closed)
      ensures received ==> readers == old(readers) - {old(stage).id} && killed == old(killed)
      ensures !received ==> killed
    {
      received := Attempt();
      if received {
        readers := readers - {stage.id};
      } else {
        killed := true;
      }
      stage := Free;
    }

    /** The locked part of Close and of closeAfterOperation: only the first one goes on. */
    method BeginClose() returns (first: bool)
      requires Valid()
      modifies this`closed, this`tearing
      ensures Valid() && View() == Next(old(View()), Close)
      ensures closed && (first <==> !old(closed)) && (first ==> tearing)
    {
      first := !closed;
      if first { closed, tearing := true, true; }
    }

    method EndClose()
      requires Valid() && tearing
      modifies this`tearing, this`killed
      ensures Valid() && View() == Next(old(View()), TearDown)
      ensures killed && !tearing
    {
      tearing, killed := false, true;
    }
  }
}
