/** The process-data seqlock: one wait-free writer and any number of retrying readers, access by access. */
module Seqlock {

  const MAX_READ_RETRIES := 16
  const MAX_PDO_BYTES := 512

  /** What one publish is handed. */
  datatype Frame = Frame(payload: seq<nat>, wkc: nat, cycle: nat)

  /** What one read returns; a stale read has no payload. */
  datatype Snapshot = Snapshot(bytes: seq<nat>, wkc: nat, cycle: nat, valid: bool, stale: bool)

  const ZERO_FRAME := Frame([], 0, 0)

  /** The payload truncated or zero-padded to the configured size. */
  function Fit(payload: seq<nat>, size: nat): (r: seq<nat>)
    ensures |r| == size
  {
    seq(size, i requires 0 <= i => if i < |payload| then payload[i] else 0)
  }

  /** The shared cells of a frame, in the order both sides access them: bytes, working counter, cycle. */
  function Cells(f: Frame, size: nat): (r: seq<nat>)
    ensures |r| == size + 2
  {
    Fit(f.payload, size) + [f.wkc, f.cycle]
  }

  /** The read result that shows exactly the frame `f`. */
  function Shows(f: Frame, size: nat): Snapshot { Snapshot(Fit(f.payload, size), f.wkc, f.cycle, true, false) }

  /** The next odd number above `v`, whatever the parity of `v`: (v + 1) | 1. */
  function NextOdd(v: nat): (odd: nat)
    ensures odd > v && odd % 2 == 1
    ensures v % 2 == 0 ==> odd == v + 1
  {
    if v % 2 == 0 then v + 1 else v + 2
  }

  // --- the interleaved system: one shared access per action ------------------------------------

  datatype Writer =
    | Idle
    | Marking(frame: Frame, odd: nat)         // seq loaded, the odd marker not yet stored
    | Storing(frame: Frame, odd: nat, i: nat) // cells below i stored; at the end, the commit

  datatype Reader =
    | Resting
    | Checking(attempt: nat)                              // about to load seq, or to give up
    | Loading(attempt: nat, before: nat, got: seq<nat>)   // cells below |got| loaded

  /** A finished read: its result, and the number of frames committed at its last access. */
  datatype Outcome = Outcome(out: Snapshot, committed: int)

  datatype Client = Client(reader: Reader, log: seq<Outcome>)

  /** `published` is the history of committed frames, the initial zero frame first. */
  datatype Sys = Sys(seqNo: nat, cells: seq<nat>, writer: Writer, clients: seq<Client>, published: seq<Frame>)

  datatype Act = Publish(frame: Frame) | Write | Call(client: nat) | Read(client: nat)

  function Start(size: nat, clients: nat): Sys {
    Sys(0, Cells(ZERO_FRAME, size), Idle, seq(clients, _ => Client(Resting, [])), [ZERO_FRAME])
  }

  function WriterStep(s: Sys, size: nat): Sys {
    match s.writer
    case Idle => s
    case Marking(f, odd) => s.(seqNo := odd, writer := Storing(f, odd, 0))
    case Storing(f, odd, i) =>
      if i < |s.cells| && i < size + 2 then
        s.(cells := s.cells[i := Cells(f, size)[i]], writer := Storing(f, odd, i + 1))
      else s.(seqNo := odd + 1, writer := Idle, published := s.published + [f])
  }

  function Finish(s: Sys, c: Client, out: Snapshot): Client {
    Client(Resting, c.log + [Outcome(out, |s.published| - 1)])
  }

  function ReaderStep(s: Sys, size: nat, c: Client): Client {
    match c.reader
    case Resting => c
    case Checking(attempt) =>
      if attempt >= MAX_READ_RETRIES then
        Finish(s, c, Snapshot([], 0, if size + 1 < |s.cells| then s.cells[size + 1] else 0, false, true))
      else if s.seqNo % 2 != 0 then c.(reader := Checking(attempt + 1))
      else c.(reader := Loading(attempt, s.seqNo, []))
    case Loading(attempt, before, got) =>
      if |got| < |s.cells| && |got| < size + 2 then c.(reader := Loading(attempt, before, got + [s.cells[|got|]]))
      else if before == s.seqNo && |got| == size + 2 then
        Finish(s, c, Snapshot(got[..size], got[size], got[size + 1], true, false))
      else c.(reader := Checking(attempt + 1))
  }

  /** Publish and Call start an operation; Write and Read perform its next shared access. */
  function Next(s: Sys, size: nat, a: Act): Sys {
    match a
    case Publish(f) => if s.writer == Idle then s.(writer := Marking(f, NextOdd(s.seqNo))) else s
    case Write => WriterStep(s, size)
    case Call(r) =>
      if r < |s.clients| && s.clients[r].reader == Resting
      then s.(clients := s.clients[r := s.clients[r].(reader := Checking(0))]) else s
    case Read(r) => if r < |s.clients| then s.(clients := s.clients[r := ReaderStep(s, size, s.clients[r])]) else s
  }

  function Run(s: Sys, size: nat, acts: seq<Act>): Sys
    decreases |acts|
  {
    if acts == [] then s else Run(Next(s, size, acts[0]), size, acts[1..])
  }

  // --- safety ------------------------------------------------------------------------------------

  predicate WriterOk(s: Sys, size: nat) {
    && |s.cells| == size + 2 && |s.published| >= 1
    && var last := |s.published| - 1;
       match s.writer
       case Idle => s.seqNo == 2 * last && s.cells == Cells(s.published[last], size)
       case Marking(_, odd) => s.seqNo == 2 * last && odd == s.seqNo + 1 && s.cells == Cells(s.published[last], size)
       case Storing(f, odd, i) =>
         s.seqNo == odd == 2 * last + 1 && i <= size + 2 && s.cells[..i] == Cells(f, size)[..i]
  }

  /** What a reader holds agrees with memory as long as the sequence number has not moved. */
  predicate ReaderOk(s: Sys, size: nat, r: Reader) {
    match r
    case Resting => true
    case Checking(attempt) => attempt <= MAX_READ_RETRIES
    case Loading(attempt, before, got) =>
      && attempt < MAX_READ_RETRIES && before <= s.seqNo && before % 2 == 0
      && |got| <= |s.cells| && (before == s.seqNo ==> got == s.cells[..|got|])
  }

  /** A result is honest about the history: exactly the newest frame committed at its last access. */
  predicate OutcomeOk(published: seq<Frame>, size: nat, o: Outcome) {
    && 0 <= o.committed < |published|
    && (o.out.valid ==> o.out == Shows(published[o.committed], size))
    && (!o.out.valid ==> o.out.stale && o.out.bytes == [])
  }

  predicate LogOk(published: seq<Frame>, size: nat, log: seq<Outcome>) {
    && (forall k :: 0 <= k < |log| ==> OutcomeOk(published, size, log[k]))
    && (forall j, k :: 0 <= j < k < |log| ==> log[j].committed <= log[k].committed)
  }

  ghost predicate Safe(s: Sys, size: nat) {
    && WriterOk(s, size)
    && forall r :: 0 <= r < |s.clients| ==>
         ReaderOk(s, size, s.clients[r].reader) && LogOk(s.published, size, s.clients[r].log)
  }

  lemma WriteKeepsWriter(s: Sys, size: nat)
    requires WriterOk(s, size)
    ensures WriterOk(WriterStep(s, size), size)
  {
    if s.writer.Storing? && s.writer.i == size + 2 {
      assert s.cells == s.cells[..size + 2] && Cells(s.writer.frame, size) == Cells(s.writer.frame, size)[..size + 2];
    }
  }

  lemma WriteKeepsReader(s: Sys, size: nat, r: Reader)
    requires WriterOk(s, size) && ReaderOk(s, size, r)
    ensures ReaderOk(WriterStep(s, size), size, r)
  {
  }

  /** A read that finds the sequence number unmoved holds the newest committed frame. */
  lemma ReadKeepsClient(s: Sys, size: nat, c: Client)
    requires WriterOk(s, size) && ReaderOk(s, size, c.reader) && LogOk(s.published, size, c.log)
    ensures var d := ReaderStep(s, size, c);
            ReaderOk(s, size, d.reader) && LogOk(s.published, size, d.log)
  {
    if c.reader.Loading? && |c.reader.got| == size + 2 && c.reader.before == s.seqNo {
      var f := s.published[|s.published| - 1];
      assert s.cells == s.cells[..size + 2];
      assert Cells(f, size)[..size] == Fit(f.payload, size);
      assert c.reader.got == Cells(f, size);
    }
  }

  lemma NextIsSafe(s: Sys, size: nat, a: Act)
    requires Safe(s, size)
    ensures Safe(Next(s, size, a), size)
  {
    match a
    case Publish(f) =>
    case Write =>
      WriteKeepsWriter(s, size);
      var t := WriterStep(s, size);
      forall r | 0 <= r < |s.clients|
        ensures ReaderOk(t, size, t.clients[r].reader) && LogOk(t.published, size, t.clients[r].log)
      {
        WriteKeepsReader(s, size, s.clients[r].reader);
      }
    case Call(r) =>
    case Read(r) =>
      if r < |s.clients| {
        ReadKeepsClient(s, size, s.clients[r]);
      }
  }

  lemma {:induction false} RunIsSafe(s: Sys, size: nat, acts: seq<Act>)
    requires Safe(s, size)
    ensures Safe(Run(s, size, acts), size)
    ensures |Run(s, size, acts).clients| == |s.clients|
    decreases |acts|
  {
    if acts != [] {
      NextIsSafe(s, size, acts[0]);
      RunIsSafe(Next(s, size, acts[0]), size, acts[1..]);
    }
  }

  /** In every interleaving of the writer with any number of readers, a valid read shows bytes, working
      counter and cycle of exactly one published frame, the newest at its last access. */
  lemma ValidReadIsOneFrame(size: nat, clients: nat, acts: seq<Act>, r: nat, k: nat)
    requires r < clients
    requires var s := Run(Start(size, clients), size, acts); r < |s.clients| && k < |s.clients[r].log|
    ensures var s := Run(Start(size, clients), size, acts);
            var o := s.clients[r].log[k];
            && 0 <= o.committed < |s.published|
            && (o.out.valid ==> o.out == Shows(s.published[o.committed], size))
            && (!o.out.valid ==> o.out.stale && o.out.bytes == [])
  {
    RunIsSafe(Start(size, clients), size, acts);
    var s := Run(Start(size, clients), size, acts);
    assert OutcomeOk(s.published, size, s.clients[r].log[k]);
  }

  /** Successive reads of one reader never go back to an earlier frame. */
  lemma ReadsNeverGoBack(size: nat, clients: nat, acts: seq<Act>, r: nat, j: nat, k: nat)
    requires r < clients && j < k
    requires var s := Run(Start(size, clients), size, acts); r < |s.clients| && k < |s.clients[r].log|
    ensures var log := Run(Start(size, clients), size, acts).clients[r].log; log[j].committed <= log[k].committed
  {
    RunIsSafe(Start(size, clients), size, acts);
  }

  // --- progress ----------------------------------------------------------------------------------

  /** Own accesses the writer still owes. */
  function WritesLeft(w: Writer, size: nat): int {
    match w
    case Idle => 0
    case Marking(_, _) => size + 4
    case Storing(_, _, i) => size + 3 - i
  }

  function CountWrites(acts: seq<Act>): nat {
    if acts == [] then 0 else (if acts[0] == Write then 1 else 0) + CountWrites(acts[1..])
  }

  lemma {:induction false} HistoryGrows(s: Sys, size: nat, acts: seq<Act>)
    ensures s.published <= Run(s, size, acts).published
    decreases |acts|
  {
    if acts != [] {
      HistoryGrows(Next(s, size, acts[0]), size, acts[1..]);
    }
  }

  /** The writer is wait-free: whatever the readers do, size + 4 of its own accesses commit the frame. */
  lemma {:induction false} PublishIsWaitFree(s: Sys, size: nat, acts: seq<Act>)
    requires Safe(s, size) && s.writer != Idle && CountWrites(acts) >= WritesLeft(s.writer, size)
    ensures WritesLeft(s.writer, size) <= size + 4
    ensures s.published + [s.writer.frame] <= Run(s, size, acts).published
    decreases |acts|
  {
    var t := Next(s, size, acts[0]);
    NextIsSafe(s, size, acts[0]);
    if t.writer == Idle {
      HistoryGrows(t, size, acts[1..]);
    } else {
      PublishIsWaitFree(t, size, acts[1..]);
    }
  }

  /** Own accesses of `n` attempts and the final stale load. */
  function AttemptsLeft(n: nat, size: nat): nat { if n == 0 then 1 else AttemptsLeft(n - 1, size) + size + 4 }

  function ReadsLeft(r: Reader, size: nat): int {
    match r
    case Resting => 0
    case Checking(attempt) => if attempt <= MAX_READ_RETRIES then AttemptsLeft(MAX_READ_RETRIES - attempt, size) else 0
    case Loading(attempt, _, got) =>
      if attempt < MAX_READ_RETRIES then AttemptsLeft(MAX_READ_RETRIES - attempt - 1, size) + size + 3 - |got| else 0
  }

  function CountReads(acts: seq<Act>, r: nat): nat {
    if acts == [] then 0 else (if acts[0] == Read(r) then 1 else 0) + CountReads(acts[1..], r)
  }

  lemma AttemptsLeftIs(n: nat, size: nat)
    ensures AttemptsLeft(n, size) == n * (size + 4) + 1
  {
    if n > 0 {
      AttemptsLeftIs(n - 1, size);
      assert n * (size + 4) == (n - 1) * (size + 4) + (size + 4);
    }
  }

  lemma {:induction false} LogGrows(s: Sys, size: nat, acts: seq<Act>, r: nat)
    requires Safe(s, size) && r < |s.clients|
    ensures r < |Run(s, size, acts).clients| && s.clients[r].log <= Run(s, size, acts).clients[r].log
    decreases |acts|
  {
    if acts != [] {
      NextIsSafe(s, size, acts[0]);
      LogGrows(Next(s, size, acts[0]), size, acts[1..], r);
    }
  }

  lemma OneReadFewer(s: Sys, size: nat, a: Act, r: nat)
    requires Safe(s, size) && r < |s.clients| && s.clients[r].reader != Resting
    ensures var t := Next(s, size, a);
            && ReadsLeft(s.clients[r].reader, size) >= 1
            && (a != Read(r) ==> t.clients[r] == s.clients[r])
            && (a == Read(r) ==> ReadsLeft(t.clients[r].reader, size) < ReadsLeft(s.clients[r].reader, size))
            && (t.clients[r].reader == Resting ==> |t.clients[r].log| > |s.clients[r].log|)
  {
    var c := s.clients[r].reader;
    if c.Checking? && c.attempt < MAX_READ_RETRIES {
      var left := MAX_READ_RETRIES - c.attempt;
      assert AttemptsLeft(left, size) == AttemptsLeft(left - 1, size) + size + 4;
    }
  }

  /** A read is bounded: whatever the writer does, it returns (a frame, or stale) within
      16 * (size + 4) + 1 of the reader's own accesses. */
  lemma {:induction false} ReadIsBounded(s: Sys, size: nat, acts: seq<Act>, r: nat)
    requires Safe(s, size) && r < |s.clients| && s.clients[r].reader != Resting
    requires CountReads(acts, r) >= ReadsLeft(s.clients[r].reader, size)
    ensures r < |Run(s, size, acts).clients| && |Run(s, size, acts).clients[r].log| > |s.clients[r].log|
    decreases |acts|
  {
    OneReadFewer(s, size, acts[0], r);
    var t := Next(s, size, acts[0]);
    NextIsSafe(s, size, acts[0]);
    if t.clients[r].reader == Resting {
      LogGrows(t, size, acts[1..], r);
    } else {
      ReadIsBounded(t, size, acts[1..], r);
    }
  }

  /** The bound of a fresh call, in numbers. */
  lemma FreshCallBudget(size: nat)
    ensures ReadsLeft(Checking(0), size) == 16 * (size + 4) + 1
  {
    AttemptsLeftIs(16, size);
  }

  // --- a read while the writer pauses ------------------------------------------------------------

  /** n accesses of one reader in a row. */
  function Alone(s: Sys, size: nat, c: Client, n: nat): Client
    decreases n
  {
    if n == 0 then c else Alone(s, size, ReaderStep(s, size, c), n - 1)
  }

  lemma {:induction false} LoadsAll(s: Sys, size: nat, c: Client, k: nat)
    requires WriterOk(s, size) && s.seqNo % 2 == 0 && k <= size + 2
    requires c.reader.Loading? && c.reader.before == s.seqNo && c.reader.got == s.cells[..size + 2 - k]
    ensures var last := |s.published| - 1;
            Alone(s, size, c, k + 1) ==
              Client(Resting, c.log + [Outcome(Shows(s.published[last], size), last)])
    decreases k
  {
    if k > 0 {
      var d := ReaderStep(s, size, c);
      assert d.reader.got == s.cells[..size + 2 - (k - 1)];
      LoadsAll(s, size, d, k - 1);
    } else {
      var f := s.published[|s.published| - 1];
      assert c.reader.got == s.cells == Cells(f, size);
      assert Cells(f, size)[..size] == Fit(f.payload, size);
      assert Alone(s, size, c, 1) == ReaderStep(s, size, c);
    }
  }

  /** On any of its 16 attempts, a reader that finds no write begun and is then left alone for size + 4 accesses
      returns the newest committed frame, valid. */
  lemma QuietReadIsValid(s: Sys, size: nat, attempt: nat, log: seq<Outcome>)
    requires WriterOk(s, size) && s.seqNo % 2 == 0 && attempt < 16
    ensures var last := |s.published| - 1;
            Alone(s, size, Client(Checking(attempt), log), size + 4)
            == Client(Resting, log + [Outcome(Shows(s.published[last], size), last)])
  {
    var c := Client(Checking(attempt), log);
    var d := ReaderStep(s, size, c);
    assert d.reader == Loading(attempt, s.seqNo, []) && s.cells[..0] == [];
    LoadsAll(s, size, d, size + 2);
  }

  /** While a write is under way or abandoned, a reader left alone gives up after its 16 attempts and one load more,
      with the cycle in memory as its only content. */
  lemma {:induction false} OddReadIsStale(s: Sys, size: nat, attempt: nat, log: seq<Outcome>)
    requires WriterOk(s, size) && s.seqNo % 2 == 1 && attempt <= 16
    ensures Alone(s, size, Client(Checking(attempt), log), 17 - attempt)
            == Client(Resting, log + [Outcome(Snapshot([], 0, s.cells[size + 1], false, true), |s.published| - 1)])
    decreases 16 - attempt
  {
    if attempt < 16 {
      OddReadIsStale(s, size, attempt + 1, log);
    } else {
      var d := ReaderStep(s, size, Client(Checking(attempt), log));
      assert Alone(s, size, d, 0) == d;
    }
  }

  // --- the object --------------------------------------------------------------------------------

  class RxSnapshot {
    var seqNo: nat
    const size: nat
    const bytes: array<nat>
    var wkc: nat
    var cycle: nat

    ghost predicate Valid()
      reads this
    {
      bytes.Length == MAX_PDO_BYTES && size <= MAX_PDO_BYTES
    }

    /** The shared cells. */
    ghost function Memory(): seq<nat>
      requires Valid()
      reads this, bytes
    {
      bytes[..size] + [wkc, cycle]
    }

    constructor (payloadSize: nat)
      ensures Valid() && fresh(bytes) && size == if payloadSize <= MAX_PDO_BYTES then payloadSize else MAX_PDO_BYTES
      ensures seqNo == 0 && Memory() == Cells(ZERO_FRAME, size)
    {
      size := if payloadSize <= MAX_PDO_BYTES then payloadSize else MAX_PDO_BYTES;
      bytes := new nat[MAX_PDO_BYTES](_ => 0);
      seqNo, wkc, cycle := 0, 0, 0;
    }

    /** Leaves the cells of the frame and an even sequence number above the old one, from any parity. */
    method Publish(f: Frame)
      requires Valid()
      modifies this, bytes
      ensures Valid() && Memory() == Cells(f, size)
      ensures seqNo == NextOdd(old(seqNo)) + 1
      ensures bytes[size..] == old(bytes[size..])
    {
      var odd := NextOdd(seqNo);
      seqNo := odd;
      for i := 0 to size
        invariant bytes[..i] == Fit(f.payload, size)[..i]
        invariant bytes[size..] == old(bytes[size..])
        invariant seqNo == odd
      {
        bytes[i] := if i < |f.payload| then f.payload[i] else 0;
      }
      wkc := f.wkc;
      cycle := f.cycle;
      seqNo := odd + 1;
    }

    /** Undisturbed, a read returns what memory shows when the number is even, and gives up when odd. */
    method Read() returns (out: Snapshot)
      requires Valid()
      ensures seqNo % 2 == 0 ==> out == Snapshot(bytes[..size], wkc, cycle, true, false)
      ensures seqNo % 2 == 1 ==> out == Snapshot([], 0, cycle, false, true)
    {
      for attempt := 0 to MAX_READ_RETRIES
        invariant attempt > 0 ==> seqNo % 2 == 1
      {
        var before := seqNo;
        if before % 2 != 0 {
          continue;
        }
        var got := [];
        for i := 0 to size
          invariant got == bytes[..i]
        {
          got := got + [bytes[i]];
        }
        var w, c := wkc, cycle;
        if before == seqNo {
          return Snapshot(got, w, c, true, false);
        }
      }
      out := Snapshot([], 0, cycle, false, true);
    }
  }

  /** After a publish, an undisturbed read shows that frame. */
  method PublishThenRead(s: RxSnapshot, f: Frame) returns (out: Snapshot)
    requires s.Valid()
    modifies s, s.bytes
    ensures out == Shows(f, s.size)
  {
    s.Publish(f);
    assert s.bytes[..s.size] == s.Memory()[..s.size] == Fit(f.payload, s.size);
    assert s.wkc == s.Memory()[s.size] && s.cycle == s.Memory()[s.size + 1];
    out := s.Read();
  }
}
