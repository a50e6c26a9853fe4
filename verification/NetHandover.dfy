/** The network thread of pdsch_enodeb.c and its hand-over to the main loop, in MBSFN mode.

    The network thread cuts a byte stream into frames and passes them through a buffer for one
    frame, guarded by a semaphore that starts at one and by a flag.  The model is a system of atomic
    steps of the two threads. */
module NetHandover {
  import opened Octets
  import opened Sequences

  /** DATA_BUFF_SZ */
  const BUFFER_SIZE := 0x10_0000

  /** Division of C, which truncates towards zero. */
  function Truncated(a: int, b: nat): int
    requires b > 0
  {
    if a >= 0 then a / b else -(-a / b)
  }

  /** The octets of a frame, from its size in bits. */
  function FrameOctets(tbs: int): int
  {
    1 + Truncated(tbs - 1, 8)
  }

  /** No frame is empty, and a frame has room for its bits; for an empty transport block too. */
  lemma FrameNotEmpty(tbs: nat)
    ensures FrameOctets(tbs) >= 1 && 8 * FrameOctets(tbs) >= tbs
    ensures tbs > 0 ==> 8 * (FrameOctets(tbs) - 1) < tbs
  {
  }

  /** The network thread: reading, at the loop test, waiting for the semaphore, owning the slot, and
      about to raise the flag. */
  datatype Net = Reading | Testing | Waiting | Owning | Flagging

  /** The main loop: idle, about to encode, having encoded, and about to post the semaphore. */
  datatype Main = Idle | Taking | Sent | Releasing

  /** The shared variables, the locals of the network thread, and the history: what was received, what
      of it is still to be accounted for, and what was dropped at reads of length zero. */
  datatype State = State(
    data2: seq<Octet>, rpm: nat, wpm: nat, nbytes: nat, slot: seq<Octet>, sem: nat, ready: bool,
    net: Net, main: Main,
    handed: seq<seq<Octet>>, received: seq<Octet>, kept: seq<Octet>, lost: seq<Octet>)

  datatype Action =
    | Read(chunk: seq<Octet>, tbs: nat) | ReadNothing | Test | Acquire | Copy | Raise
    | Look | Encode | Lower | Post

  predicate IsInit(s: State)
  {
    && |s.data2| == BUFFER_SIZE && s.rpm == 0 && s.wpm == 0 && s.sem == 1 && !s.ready
    && s.net == Reading && s.main == Idle && s.handed == [] && s.received == [] && s.kept == [] && s.lost == []
  }

  predicate Enabled(s: State, a: Action)
  {
    match a
    case Read(chunk, _) => s.net == Reading && 0 < |chunk| && s.rpm + |chunk| <= |s.data2|
    case ReadNothing => s.net == Reading && s.rpm <= |s.data2| && s.rpm <= |s.kept|
    case Test => s.net == Testing && s.wpm + s.rpm <= |s.data2|
    case Acquire => s.net == Waiting && s.sem > 0
    case Copy => s.net == Owning && s.nbytes <= s.rpm && s.wpm + s.rpm <= |s.data2|
    case Raise => s.net == Flagging
    case Look => s.main == Idle
    case Encode => s.main == Taking
    case Lower => s.main == Sent
    case Post => s.main == Releasing
  }

  /** `memcpy(data2, &data2[wpm], rpm)` */
  function Compacted(d: seq<Octet>, wpm: nat, rpm: nat): (r: seq<Octet>)
    requires wpm + rpm <= |d|
    ensures |r| == |d| && r[..rpm] == d[wpm..wpm + rpm]
  {
    d[wpm..wpm + rpm] + d[rpm..]
  }

  function Next(s: State, a: Action): State
    requires Enabled(s, a)
  {
    match a
    case Read(chunk, tbs) =>
      FrameNotEmpty(tbs);
      s.(data2 := s.data2[..s.rpm] + chunk + s.data2[s.rpm + |chunk|..], rpm := s.rpm + |chunk|, wpm := 0,
         nbytes := FrameOctets(tbs), net := Testing, received := s.received + chunk, kept := s.kept + chunk)
    case ReadNothing =>
      s.(rpm := 0, kept := s.kept[..|s.kept| - s.rpm], lost := s.lost + s.data2[..s.rpm])
    case Test =>
      if s.rpm >= s.nbytes then s.(net := Waiting)
      else s.(data2 := if s.wpm > 0 then Compacted(s.data2, s.wpm, s.rpm) else s.data2, net := Reading)
    case Acquire => s.(sem := s.sem - 1, net := Owning)
    case Copy =>
      s.(slot := s.data2[s.wpm..s.wpm + s.nbytes], rpm := s.rpm - s.nbytes, wpm := s.wpm + s.nbytes, net := Flagging)
    case Raise => s.(ready := true, net := Testing)
    case Look => s.(main := if s.ready then Taking else Idle)
    case Encode => s.(handed := s.handed + [s.slot], main := Sent)
    case Lower => if s.ready then s.(ready := false, main := Releasing) else s.(main := Idle)
    case Post => s.(sem := s.sem + 1, main := Idle)
  }

  // ---- What every run keeps

  function One(b: bool): nat
  {
    if b then 1 else 0
  }

  /** The right to the slot is in exactly one place: the semaphore, the network thread, the flag or
      the main loop. */
  predicate OneOwner(s: State)
  {
    s.sem + One(s.ready) + One(s.net in {Owning, Flagging}) + One(s.main == Releasing) == 1
    && (s.main in {Taking, Sent} ==> s.ready)
  }

  predicate InBounds(s: State)
  {
    && |s.data2| == BUFFER_SIZE
    && (s.net == Reading ==> s.rpm <= BUFFER_SIZE)
    && (s.net != Reading ==> s.wpm + s.rpm <= BUFFER_SIZE && s.nbytes >= 1 && (s.wpm > 0 ==> s.wpm >= s.nbytes))
    && (s.net in {Waiting, Owning} ==> s.rpm >= s.nbytes)
    && (s.net == Flagging ==> s.wpm >= s.nbytes)
  }

  /** The bytes of the buffer that have not been copied to the slot. */
  function Rest(s: State): seq<Octet>
    requires InBounds(s)
  {
    if s.net == Reading then s.data2[..s.rpm] else s.data2[s.wpm..s.wpm + s.rpm]
  }

  /** The frame in the slot that the main loop has not encoded yet. */
  function Pending(s: State): seq<Octet>
  {
    if s.net == Flagging || (s.ready && s.main != Sent) then s.slot else []
  }

  /** Frames handed over, the pending frame and the rest of the buffer are the bytes read, in order. */
  predicate Conserved(s: State)
    requires InBounds(s)
  {
    Concat(s.handed) + Pending(s) + Rest(s) == s.kept && |s.kept| + |s.lost| == |s.received|
  }

  predicate Inv(s: State)
  {
    OneOwner(s) && InBounds(s) && Conserved(s)
  }

  lemma ReadKeeps(s: State, chunk: seq<Octet>, tbs: nat)
    requires Inv(s) && Enabled(s, Read(chunk, tbs))
    ensures Inv(Next(s, Read(chunk, tbs)))
  {
    var t := Next(s, Read(chunk, tbs));
    FrameNotEmpty(tbs);
    assert Rest(t) == Rest(s) + chunk;
    assert Concat(t.handed) + Pending(t) + Rest(t) == (Concat(s.handed) + Pending(s) + Rest(s)) + chunk;
  }

  lemma DropKeeps(s: State)
    requires Inv(s) && s.net == Reading
    ensures Enabled(s, ReadNothing) && Inv(Next(s, ReadNothing))
  {
    var front := Concat(s.handed) + Pending(s);
    assert s.kept == front + Rest(s);
    assert (front + Rest(s))[..|front|] == front;
    assert front + [] == front;
  }

  lemma Regroup(a: seq<Octet>, b: seq<Octet>, c: seq<Octet>)
    ensures a + [] + (b + c) == a + b + c
  {
  }

  lemma CopyKeeps(s: State)
    requires Inv(s) && s.net == Owning
    ensures Enabled(s, Copy) && Inv(Next(s, Copy))
  {
    var t := Next(s, Copy);
    assert InBounds(t) && OneOwner(t);
    assert Rest(s) == t.slot + Rest(t);
    Regroup(Concat(s.handed), t.slot, Rest(t));
  }

  lemma EncodeKeeps(s: State)
    requires Inv(s) && s.main == Taking
    ensures Inv(Next(s, Encode))
  {
    var t := Next(s, Encode);
    assert Init(t.handed) == s.handed;
    assert Concat(t.handed) == Concat(s.handed) + s.slot;
    assert Concat(t.handed) + [] + Rest(t) == Concat(s.handed) + s.slot + Rest(s);
  }

  lemma TestKeeps(s: State)
    requires Inv(s) && s.net == Testing
    ensures Enabled(s, Test) && Inv(Next(s, Test))
  {
    var t := Next(s, Test);
    assert Rest(t) == Rest(s);
  }

  lemma NextKeeps(s: State, a: Action)
    requires Inv(s) && Enabled(s, a)
    ensures Inv(Next(s, a))
  {
    match a
    case Read(chunk, tbs) => ReadKeeps(s, chunk, tbs);
    case ReadNothing => DropKeeps(s);
    case Test => TestKeeps(s);
    case Copy => CopyKeeps(s);
    case Encode => EncodeKeeps(s);
    case Acquire =>
    case Raise =>
    case Look =>
    case Lower =>
    case Post =>
  }

  // ---- Runs

  /** Every state of the path follows from the one before it by a step of either thread. */
  ghost predicate IsRun(path: seq<State>)
  {
    && |path| > 0 && IsInit(path[0])
    && forall i | 0 < i < |path| :: Step(path[i - 1], path[i])
  }

  ghost predicate Step(s: State, t: State)
  {
    exists a :: Enabled(s, a) && t == Next(s, a)
  }

  lemma {:induction false} RunKeeps(path: seq<State>, i: nat)
    requires IsRun(path) && i < |path|
    ensures Inv(path[i])
  {
    if i == 0 {
      assert Concat(path[0].handed) + Pending(path[0]) + Rest(path[0]) == [];
    } else {
      RunKeeps(path, i - 1);
      assert Step(path[i - 1], path[i]);
      var a :| Enabled(path[i - 1], a) && path[i] == Next(path[i - 1], a);
      NextKeeps(path[i - 1], a);
    }
  }

  /** What the main loop has and will get from the network thread's buffer, in order. */
  function Stream(s: State): seq<Octet>
    requires InBounds(s)
  {
    Concat(s.handed) + Pending(s) + Rest(s)
  }

  /** t is later than s, and if nothing was dropped in between, what was received in between was kept. */
  predicate Follows(s: State, t: State)
  {
    && |s.lost| <= |t.lost|
    && s.received <= t.received
    && (|s.lost| == |t.lost| ==> t.kept == s.kept + t.received[|s.received|..])
  }

  /** The action between two states of a run. */
  lemma ActionAt(path: seq<State>, i: nat) returns (a: Action)
    requires IsRun(path) && 0 < i < |path|
    ensures Inv(path[i - 1]) && Enabled(path[i - 1], a) && path[i] == Next(path[i - 1], a)
  {
    RunKeeps(path, i - 1);
    assert Step(path[i - 1], path[i]);
    a :| Enabled(path[i - 1], a) && path[i] == Next(path[i - 1], a);
  }

  lemma StepFollows(s: State, a: Action)
    requires Inv(s) && Enabled(s, a)
    ensures Follows(s, Next(s, a))
  {
    match a
    case Read(chunk, tbs) => ReadFollows(s, chunk, tbs);
    case ReadNothing => DropFollows(s);
    case _ => StillFollows(s, Next(s, a));
  }

  lemma ReadFollows(s: State, chunk: seq<Octet>, tbs: nat)
    requires Enabled(s, Read(chunk, tbs))
    ensures Follows(s, Next(s, Read(chunk, tbs)))
  {
    assert (s.received + chunk)[|s.received|..] == chunk;
  }

  lemma DropFollows(s: State)
    requires Inv(s) && Enabled(s, ReadNothing)
    ensures Follows(s, Next(s, ReadNothing))
  {
    var t := Next(s, ReadNothing);
    if s.rpm == 0 { assert t.kept == s.kept && s.received[|s.received|..] == []; }
  }

  lemma StillFollows(s: State, t: State)
    requires t.received == s.received && t.kept == s.kept && t.lost == s.lost
    ensures Follows(s, t)
  {
    assert s.received[|s.received|..] == [];
  }

  lemma FollowsThen(s: State, t: State, u: State)
    requires Follows(s, t) && Follows(t, u)
    ensures Follows(s, u)
  {
    var r, k := |s.received|, |t.received|;
    assert u.received[r..] == t.received[r..] + u.received[k..];
  }

  lemma {:induction false} RunFollows(path: seq<State>, i: nat, j: nat)
    requires IsRun(path) && i <= j < |path|
    ensures Follows(path[i], path[j])
  {
    if i < j {
      RunFollows(path, i, j - 1);
      var a := ActionAt(path, j);
      StepFollows(path[j - 1], a);
      FollowsThen(path[i], path[j - 1], path[j]);
    }
  }

  /** In every interleaving and between any two moments, if no read of length zero dropped anything in
      between, then the frames handed over, the pending frame and the rest of the buffer have grown by
      exactly the bytes received in between. */
  lemma StreamConserved(path: seq<State>, i: nat, j: nat)
    requires IsRun(path) && i <= j < |path| && |path[i].lost| == |path[j].lost|
    ensures InBounds(path[i]) && InBounds(path[j]) && path[i].received <= path[j].received
    ensures Stream(path[j]) == Stream(path[i]) + path[j].received[|path[i].received|..]
  {
    RunKeeps(path, i);
    RunKeeps(path, j);
    RunFollows(path, i, j);
  }

  /** From the start: until the first byte is dropped, the stream is what was received. */
  lemma StreamFromStart(path: seq<State>, j: nat)
    requires IsRun(path) && j < |path| && path[j].lost == []
    ensures InBounds(path[j]) && Stream(path[j]) == path[j].received
  {
    StreamConserved(path, 0, j);
    RunKeeps(path, 0);
  }

  lemma DropStep(s: State, a: Action)
    requires Inv(s) && Enabled(s, a) && InBounds(Next(s, a)) && Next(s, a).lost != s.lost
    ensures Next(s, a).received == s.received && Next(s, a).lost == s.lost + Rest(s)
    ensures Stream(s) == Stream(Next(s, a)) + Rest(s)
  {
    assert a == ReadNothing;
    assert Concat(s.handed) + Pending(s) + [] == Concat(s.handed) + Pending(s);
  }

  /** A read of length zero drops the rest of the buffer and nothing else. */
  lemma DropIsRest(path: seq<State>, i: nat)
    requires IsRun(path) && 0 < i < |path| && path[i - 1].lost != path[i].lost
    ensures InBounds(path[i - 1]) && InBounds(path[i]) && path[i].received == path[i - 1].received
    ensures path[i].lost == path[i - 1].lost + Rest(path[i - 1])
    ensures Stream(path[i - 1]) == Stream(path[i]) + Rest(path[i - 1])
  {
    var a := ActionAt(path, i);
    RunKeeps(path, i);
    DropStep(path[i - 1], a);
  }

  lemma SlotStep(s: State, a: Action)
    requires Inv(s) && Enabled(s, a) && (s.ready || s.main == Releasing)
    ensures Next(s, a).slot == s.slot
  {
  }

  /** The network thread does not touch the slot from the moment the flag is up until the main loop has
      posted the semaphore. */
  lemma SlotUntouched(path: seq<State>, i: nat)
    requires IsRun(path) && 0 < i < |path|
    requires path[i - 1].ready || path[i - 1].main == Releasing
    ensures path[i].slot == path[i - 1].slot
  {
    var a := ActionAt(path, i);
    SlotStep(path[i - 1], a);
  }

  /** The copy that moves the rest of the buffer to its start never overlaps itself, so `memcpy` is
      enough. */
  lemma CompactionDisjoint(path: seq<State>, i: nat)
    requires IsRun(path) && i < |path|
    requires path[i].net == Testing && path[i].rpm < path[i].nbytes && path[i].wpm > 0
    ensures path[i].rpm < path[i].wpm && path[i].wpm + path[i].rpm <= BUFFER_SIZE
  {
    RunKeeps(path, i);
  }

  /** The semaphore never exceeds one, and a thread that waits for it finds the slot in use. */
  lemma SemaphoreBinary(path: seq<State>, i: nat)
    requires IsRun(path) && i < |path|
    ensures path[i].sem <= 1
    ensures path[i].net == Waiting && path[i].sem == 0 ==> path[i].ready || path[i].main == Releasing
  {
    RunKeeps(path, i);
  }

  // ---- The moves within the buffer

  /** `memcpy(data2, &data2[wpm], rpm)`, which may be a copy in any order because it does not overlap;
      here in ascending order. */
  method Compact(data2: array<Octet>, wpm: nat, rpm: nat)
    requires rpm <= wpm && wpm + rpm <= data2.Length
    modifies data2
    ensures data2[..] == Compacted(old(data2[..]), wpm, rpm)
  {
    for i := 0 to rpm
      invariant forall k | 0 <= k < data2.Length ::
        data2[k] == if k < i then old(data2[wpm + k]) else old(data2[k])
    {
      data2[i] := data2[wpm + i];
    }
  }

  /** The inner loop of the network thread as it runs when the slot is always free: cuts the received
      bytes into frames and leaves the rest at the start of the buffer. */
  method CutFrames(data2: array<Octet>, received: nat, nbytes: nat) returns (frames: seq<seq<Octet>>, rpm: nat)
    requires received <= data2.Length && nbytes >= 1
    modifies data2
    ensures rpm < nbytes && rpm <= received && forall i | 0 <= i < |frames| :: |frames[i]| == nbytes
    ensures Concat(frames) + data2[..rpm] == old(data2[..received])
  {
    frames, rpm := [], received;
    var wpm := 0;
    ghost var all := data2[..];
    while rpm >= nbytes
      invariant data2[..] == all && wpm + rpm == received && (wpm > 0 ==> wpm >= nbytes)
      invariant Concat(frames) == all[..wpm]
      invariant forall i | 0 <= i < |frames| :: |frames[i]| == nbytes
    {
      ghost var before := frames;
      frames := frames + [data2[wpm..wpm + nbytes]];
      assert Init(frames) == before;
      assert all[..wpm + nbytes] == all[..wpm] + all[wpm..wpm + nbytes];
      rpm := rpm - nbytes;
      wpm := wpm + nbytes;
    }
    if wpm > 0 {
      Compact(data2, wpm, rpm);
      assert data2[..rpm] == all[wpm..wpm + rpm];
    }
    assert all[..received] == all[..wpm] + all[wpm..received];
  }
}
