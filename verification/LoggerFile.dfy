/** The log queue of logger_file.cc: any number of producers, a writer thread that rotates its
    files, and a destructor, as a system of atomic steps.

    A step is what one thread does between two points where another may run; everything between
    lock and unlock is one step, except that the writer gives the mutex up while it waits. */
module LoggerFile {
  import opened Sequences

  type Message = string

  /** Where the writer thread stands: at the loop test, about to lock, waiting, holding the mutex with
      a message to take, with a count to add, or returned, perhaps with the mutex still held. */
  datatype Writer = AtTest | Locking | Waiting | Popping | Counting(n: nat) | Returned(holding: bool)

  /** Where the destructor stands. */
  datatype Closer = Idle | Announced | Stopped | Joined | Flushed

  /** The fields of the class, the two threads, and the history: what was logged, in lock order, and
      what was taken from the queue while no file was open. */
  datatype State = State(
    buffer: seq<Message>, closed: seq<seq<Message>>, current: seq<Message>, open: bool,
    curLength: nat, maxLength: int, nameIdx: nat, running: bool,
    writer: Writer, closer: Closer, logged: seq<Message>, dropped: seq<Message>)

  datatype Action =
    | Log(msg: Message) | Test | Lock | Wake | Pop | Count(opens: bool)
    | Announce | Stop | Join | Flush

  const CLOSING: Message := "Closing log\n"

  /** After `init`, which may have failed to open the first file. */
  function Begun(maxLength: int, open: bool): State
  {
    State([], [], [], open, 0, maxLength, 0, true, AtTest, Idle, [], [])
  }

  predicate MutexFree(s: State)
  {
    s.writer != Popping && s.writer != Returned(true)
  }

  predicate Enabled(s: State, a: Action)
  {
    match a
    case Log(_) => MutexFree(s) && s.closer != Flushed
    case Test => s.writer == AtTest
    case Lock => s.writer == Locking && MutexFree(s)
    case Wake => s.writer == Waiting && MutexFree(s)
    case Pop => s.writer == Popping && s.buffer != []
    case Count(_) => s.writer.Counting?
    case Announce => s.closer == Idle && s.running && MutexFree(s)
    case Stop => s.closer == Announced && MutexFree(s)
    case Join => s.closer == Stopped && s.writer.Returned?
    case Flush => s.closer == Joined
  }

  function Next(s: State, a: Action): State
    requires Enabled(s, a)
  {
    match a
    case Log(msg) => Pushed(s, msg)
    case Test => s.(writer := if s.running then Locking else Returned(false))
    case Lock => s.(writer := if s.buffer == [] then Waiting else Popping)
    case Wake => s.(writer := if !s.running then Returned(true) else if s.buffer == [] then Waiting else Popping)
    case Pop => Popped(s)
    case Count(opens) => Counted(s, opens)
    case Announce => Pushed(s, CLOSING).(closer := Announced)
    case Stop => s.(running := false, closer := Stopped)
    case Join => s.(closer := Joined)
    case Flush => Emptied(s)
  }

  function Pushed(s: State, msg: Message): State
  {
    s.(buffer := s.buffer + [msg], logged := s.logged + [msg])
  }

  /** The front message goes to the file, if there is one. */
  function Popped(s: State): State
    requires s.buffer != []
  {
    var msg, rest := s.buffer[0], s.buffer[1..];
    if s.open
      then s.(buffer := rest, current := s.current + [msg], writer := Counting(|msg|))
      else s.(buffer := rest, dropped := s.dropped + [msg], writer := Counting(0))
  }

  /** The length is added; a file that is full is closed and the next one opened. */
  function Counted(s: State, opens: bool): State
    requires s.writer.Counting?
  {
    var length := s.curLength + s.writer.n;
    if s.writer.n > 0 && length >= s.maxLength && s.maxLength > 0
      then s.(closed := s.closed + [s.current], current := [], open := opens, curLength := 0,
              nameIdx := s.nameIdx + 1, writer := AtTest)
      else s.(curLength := length, writer := AtTest)
  }

  /** What is left in the queue goes to the file, if there is one; the queue is not used again. */
  function Emptied(s: State): State
  {
    if s.open
      then s.(current := s.current + s.buffer, buffer := [], closer := Flushed)
      else s.(dropped := s.dropped + s.buffer, buffer := [], closer := Flushed)
  }

  // ---- Runs

  predicate Possible(s: State, actions: seq<Action>)
    decreases |actions|, 0
  {
    |actions| == 0 || (Possible(s, Init(actions)) && Enabled(After(s, Init(actions)), Last(actions)))
  }

  function After(s: State, actions: seq<Action>): State
    requires Possible(s, actions)
    decreases |actions|, 1
  {
    if |actions| == 0 then s else Next(After(s, Init(actions)), Last(actions))
  }

  // ---- What every run keeps

  /** All messages in the files, in the order of the files. */
  function Written(s: State): seq<Message>
  {
    Concat(s.closed) + s.current
  }

  /** Characters in a file. */
  function Size(file: seq<Message>): nat
  {
    if |file| == 0 then 0 else Size(Init(file)) + |Last(file)|
  }

  /** A file that was closed by rotation: full, but not before its last message. */
  predicate Rotated(file: seq<Message>, maxLength: int)
  {
    maxLength > 0 && |file| > 0 && Size(file) - |Last(file)| < maxLength <= Size(file)
  }

  function Pending(w: Writer): nat
  {
    if w.Counting? then w.n else 0
  }

  /** Nothing is lost, duplicated or reordered. */
  predicate Conserved(s: State)
  {
    Written(s) + s.dropped + s.buffer == s.logged && (s.open ==> s.dropped == [])
  }

  /** The length that is counted is that of the open file, and below the limit. */
  predicate Measured(s: State)
  {
    && (s.maxLength > 0 ==> s.curLength < s.maxLength)
    && (s.open && s.closer != Flushed ==> Size(s.current) == s.curLength + Pending(s.writer))
    && (Pending(s.writer) > 0 && s.closer != Flushed ==> s.open && s.current != [] && |Last(s.current)| == s.writer.n)
    && s.nameIdx == |s.closed|
    && forall i | 0 <= i < |s.closed| :: Rotated(s.closed[i], s.maxLength)
  }

  /** The destructor goes on only when the writer has returned. */
  predicate Ordered(s: State)
  {
    && (s.writer == Popping ==> s.buffer != [])
    && (s.closer in {Joined, Flushed} ==> s.writer.Returned?)
    && (s.writer.Returned? ==> !s.running)
    && (s.running <==> s.closer in {Idle, Announced})
  }

  predicate Inv(s: State)
  {
    Conserved(s) && Measured(s) && Ordered(s)
  }

  lemma BegunKeeps(maxLength: int, open: bool)
    ensures Inv(Begun(maxLength, open))
  {
  }

  lemma PushKeeps(s: State, msg: Message)
    requires Conserved(s)
    ensures Conserved(Pushed(s, msg))
  {
    assert Written(s) + s.dropped + (s.buffer + [msg]) == (Written(s) + s.dropped + s.buffer) + [msg];
  }

  lemma PopKeeps(s: State)
    requires Inv(s) && s.writer == Popping
    ensures Inv(Popped(s))
  {
    var msg := s.buffer[0];
    assert s.buffer == [msg] + s.buffer[1..];
    var t := Popped(s);
    if s.open {
      assert Init(t.current) == s.current;
      assert Written(t) == Written(s) + [msg];
    }
  }

  lemma CountKeeps(s: State, opens: bool)
    requires Inv(s) && s.writer.Counting?
    ensures Inv(Counted(s, opens))
  {
    var t := Counted(s, opens);
    if t.nameIdx > s.nameIdx {
      assert Init(t.closed) == s.closed;
      assert Written(t) == Written(s);
      assert Rotated(s.current, s.maxLength);
    }
  }

  lemma FlushKeeps(s: State)
    requires Inv(s) && s.closer == Joined
    ensures Inv(Emptied(s))
  {
    if s.open {
      assert Written(Emptied(s)) == Written(s) + s.buffer;
    }
  }

  lemma NextKeeps(s: State, a: Action)
    requires Inv(s) && Enabled(s, a)
    ensures Inv(Next(s, a))
  {
    match a
    case Log(msg) => PushKeeps(s, msg);
    case Announce => PushKeeps(s, CLOSING);
    case Pop => PopKeeps(s);
    case Count(opens) => CountKeeps(s, opens);
    case Flush => FlushKeeps(s);
    case Test =>
    case Lock =>
    case Wake =>
    case Stop =>
    case Join =>
  }

  lemma {:induction false} RunKeeps(maxLength: int, open: bool, actions: seq<Action>)
    requires Possible(Begun(maxLength, open), actions)
    ensures Inv(After(Begun(maxLength, open), actions))
  {
    if |actions| == 0 {
      BegunKeeps(maxLength, open);
    } else {
      RunKeeps(maxLength, open, Init(actions));
      NextKeeps(After(Begun(maxLength, open), Init(actions)), Last(actions));
    }
  }

  /** In every interleaving the files hold a prefix of what was logged, in lock order; while every
      file could be opened, the files followed by the queue are exactly what was logged. */
  lemma NothingLost(maxLength: int, open: bool, actions: seq<Action>)
    requires Possible(Begun(maxLength, open), actions)
    ensures var s := After(Begun(maxLength, open), actions);
            Written(s) <= s.logged && (s.open ==> Written(s) + s.buffer == s.logged)
  {
    RunKeeps(maxLength, open, actions);
    var s := After(Begun(maxLength, open), actions);
    assert s.logged == Written(s) + (s.dropped + s.buffer);
    if s.open { assert s.dropped + s.buffer == s.buffer; }
  }

  /** When the destructor is done and every file could be opened, each message has been written
      exactly once, the closing message among them. */
  lemma AllWrittenAtTheEnd(maxLength: int, open: bool, actions: seq<Action>)
    requires Possible(Begun(maxLength, open), actions)
    ensures var s := After(Begun(maxLength, open), actions);
            s.closer == Flushed && s.open ==> Written(s) == s.logged && CLOSING in Written(s)
  {
    NothingLost(maxLength, open, actions);
    FlushedEmpty(maxLength, open, actions);
  }

  /** The queue is empty once flushed, and the closing message is among what was logged. */
  predicate Closed(s: State)
  {
    (s.closer == Flushed ==> s.buffer == []) && (s.closer != Idle ==> CLOSING in s.logged)
  }

  lemma ClosedNext(s: State, a: Action)
    requires Closed(s) && Ordered(s) && Enabled(s, a)
    ensures Closed(Next(s, a))
  {
  }

  lemma {:induction false} FlushedEmpty(maxLength: int, open: bool, actions: seq<Action>)
    requires Possible(Begun(maxLength, open), actions)
    ensures Closed(After(Begun(maxLength, open), actions))
  {
    if |actions| > 0 {
      FlushedEmpty(maxLength, open, Init(actions));
      RunKeeps(maxLength, open, Init(actions));
      ClosedNext(After(Begun(maxLength, open), Init(actions)), Last(actions));
    }
  }

  /** Every file closed by rotation exceeds the limit by its last message only. */
  lemma RotationOvershoot(maxLength: int, open: bool, actions: seq<Action>, i: nat)
    requires Possible(Begun(maxLength, open), actions)
    requires i < |After(Begun(maxLength, open), actions).closed|
    ensures Rotated(After(Begun(maxLength, open), actions).closed[i], maxLength)
  {
    RunKeeps(maxLength, open, actions);
    LimitFixed(maxLength, open, actions);
  }

  lemma {:induction false} LimitFixed(maxLength: int, open: bool, actions: seq<Action>)
    requires Possible(Begun(maxLength, open), actions)
    ensures After(Begun(maxLength, open), actions).maxLength == maxLength
  {
    if |actions| > 0 { LimitFixed(maxLength, open, Init(actions)); }
  }

  // ---- The writer's return from its wait, which leaves the mutex locked

  /** Some wake-up of the writer comes after the destructor has stopped it. */
  ghost predicate WokenAfterStop(actions: seq<Action>)
  {
    exists i, j :: 0 <= i < j < |actions| && actions[i] == Stop && actions[j] == Wake
  }

  /** One more action adds a wake-up after a stop only if it is a wake-up and a stop came before. */
  lemma WokenLast(actions: seq<Action>)
    requires |actions| > 0
    ensures WokenAfterStop(actions) <==>
      WokenAfterStop(Init(actions)) || (Last(actions) == Wake && Stop in Init(actions))
  {
    var before := Init(actions);
    if Last(actions) == Wake && Stop in before {
      var i :| 0 <= i < |before| && before[i] == Stop;
      assert actions[i] == Stop && actions[|actions| - 1] == Wake;
    }
    if WokenAfterStop(before) {
      var i, j :| 0 <= i < j < |before| && before[i] == Stop && before[j] == Wake;
      assert actions[i] == Stop && actions[j] == Wake;
    }
    if WokenAfterStop(actions) {
      var i, j :| 0 <= i < j < |actions| && actions[i] == Stop && actions[j] == Wake;
      assert before[i] == Stop;
      if j < |before| { assert before[j] == Wake; }
    }
  }

  /** The thread is told to end by the destructor only. */
  lemma {:induction false} RunningUntilStop(maxLength: int, open: bool, actions: seq<Action>)
    requires Possible(Begun(maxLength, open), actions)
    ensures After(Begun(maxLength, open), actions).running <==> Stop !in actions
  {
    if |actions| > 0 {
      RunningUntilStop(maxLength, open, Init(actions));
      assert actions == Init(actions) + [Last(actions)];
    }
  }

  /** A writer that returned with the mutex held keeps it: from then on, whatever happens, no producer
      can log. */
  lemma {:induction false} MutexNeverReleased(s: State, actions: seq<Action>)
    requires Possible(s, actions) && s.writer == Returned(true)
    ensures After(s, actions).writer == Returned(true)
    ensures forall msg :: !Enabled(After(s, actions), Log(msg))
  {
    if |actions| > 0 { MutexNeverReleased(s, Init(actions)); }
  }

  /** In every run the writer has returned with the mutex held exactly if some wake-up came after the
      stop; then no producer can log. */
  lemma {:induction false} ReturnHoldingMutex(maxLength: int, open: bool, actions: seq<Action>)
    requires Possible(Begun(maxLength, open), actions)
    ensures After(Begun(maxLength, open), actions).writer == Returned(true) <==> WokenAfterStop(actions)
    ensures WokenAfterStop(actions) ==> forall msg :: !Enabled(After(Begun(maxLength, open), actions), Log(msg))
  {
    if |actions| > 0 {
      ReturnHoldingMutex(maxLength, open, Init(actions));
      RunningUntilStop(maxLength, open, Init(actions));
      WokenLast(actions);
    }
  }

  /** Such a run exists: the writer waits, and is stopped and woken. */
  lemma HoldingMutexHappens(maxLength: int, open: bool)
    ensures Possible(Begun(maxLength, open), [Test, Lock, Announce, Stop, Wake])
    ensures After(Begun(maxLength, open), [Test, Lock, Announce, Stop, Wake]).writer == Returned(true)
  {
    var s := Begun(maxLength, open);
    var s1 := Extend(s, [], s, Test, [Test]);
    var s2 := Extend(s, [Test], s1, Lock, [Test, Lock]);
    var s3 := Extend(s, [Test, Lock], s2, Announce, [Test, Lock, Announce]);
    var s4 := Extend(s, [Test, Lock, Announce], s3, Stop, [Test, Lock, Announce, Stop]);
    var s5 := Extend(s, [Test, Lock, Announce, Stop], s4, Wake, [Test, Lock, Announce, Stop, Wake]);
  }

  lemma Extend(s: State, actions: seq<Action>, now: State, a: Action, all: seq<Action>) returns (next: State)
    requires Possible(s, actions) && After(s, actions) == now && Enabled(now, a) && all == actions + [a]
    ensures Possible(s, all) && After(s, all) == next == Next(now, a)
  {
    assert Init(all) == actions;
    next := Next(now, a);
  }

  // ---- The source's class

  /** The fields of the source, with the two threads' positions and the history beside them.  Each
      method is one atomic section of the source and takes the step of its name. */
  class Logger {
    var buffer: seq<Message>
    var logfile: bool
    var current: seq<Message>
    var closed: seq<seq<Message>>
    var curLength: nat
    var maxLength: int
    var nameIdx: nat
    var isRunning: bool
    ghost var writer: Writer
    ghost var closer: Closer
    ghost var logged: seq<Message>
    ghost var dropped: seq<Message>

    ghost function Now(): State
      reads this
    {
      State(buffer, closed, current, logfile, curLength, maxLength, nameIdx, isRunning, writer, closer, logged, dropped)
    }

    /** `init`; whether the file could be opened is given. */
    constructor (maxKilobytes: int, opens: bool)
      ensures Now() == Begun(maxKilobytes * 1024, opens)
    {
      buffer, logfile, current, closed := [], opens, [], [];
      curLength, maxLength, nameIdx, isRunning := 0, maxKilobytes * 1024, 0, true;
      writer, closer, logged, dropped := AtTest, Idle, [], [];
    }

    /** `log` */
    method PushBack(msg: Message)
      requires Enabled(Now(), Log(msg))
      modifies this
      ensures Now() == Next(old(Now()), Log(msg))
    {
      buffer := buffer + [msg];
      logged := logged + [msg];
    }

    /** The part of `run_thread` that takes the front message, writes it and unlocks; returns what
        the write returned. */
    method TakeFront() returns (n: nat)
      requires Enabled(Now(), Pop)
      modifies this
      ensures Now() == Next(old(Now()), Pop) && writer == Counting(n)
    {
      var s := buffer[0];
      n := 0;
      if logfile {
        current := current + [s];
        n := |s|;
      } else {
        dropped := dropped + [s];
      }
      buffer := buffer[1..];
      writer := Counting(n);
    }

    /** The part of `run_thread` after the unlock; whether the next file could be opened is given. */
    method AddLength(n: nat, opens: bool)
      requires writer == Counting(n)
      modifies this
      ensures Now() == Next(old(Now()), Count(opens))
    {
      if n > 0 {
        curLength := curLength + n;
        if curLength >= maxLength && maxLength > 0 {
          closed := closed + [current];
          current := [];
          nameIdx := nameIdx + 1;
          logfile := opens;
          curLength := 0;
        }
      }
      writer := AtTest;
    }

    /** `flush` */
    method FlushAll()
      requires Enabled(Now(), Flush)
      modifies this
      ensures Now() == Next(old(Now()), Flush)
    {
      ghost var was := Now();
      var it := 0;
      while it < |buffer|
        invariant it <= |buffer|
        invariant logfile ==> Now() == was.(current := was.current + buffer[..it])
        invariant !logfile ==> Now() == was.(dropped := was.dropped + buffer[..it])
      {
        var s := buffer[it];
        if logfile {
          current := current + [s];
        } else {
          dropped := dropped + [s];
        }
        assert buffer[..it + 1] == buffer[..it] + [s];
        it := it + 1;
      }
      assert buffer[..it] == buffer;
      buffer := [];
      closer := Flushed;
    }
  }
}
