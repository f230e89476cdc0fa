/**
 Whole runs of the ATA channel. A pending WRITE is a list of words that reaches the disk
 all at once, when it is complete, or never.
 */
module AtaRuns {
  import opened Bytes
  import opened HardDisk
  import opened Ata

  datatype Event =
    | SetReg(reg: int, value: Byte)
    | Control(value: Byte)
    | Pull               // a word read from the data register
    | Push(word: Word)   // a word written to the data register

  datatype Channel = Channel(regs: Regs, drive: Option<Store>)

  ghost predicate Sound(c: Channel) {
    Valid(c.regs, c.drive)
  }

  function Step(c: Channel, e: Event): (c': Channel)
    requires Sound(c)
    ensures Sound(c')
  {
    match e
    case SetReg(reg, v) =>
      RegKeepsValid(c.regs, c.drive, reg, v);
      c.(regs := WriteReg(c.regs, c.drive, reg, v))
    case Control(v) => c.(regs := DevCtl(c.regs, v))
    case Pull =>
      ReadKeepsValid(c.regs, c.drive);
      c.(regs := ReadWord(c.regs).0)
    case Push(w) =>
      WriteKeepsValid(c.regs, c.drive, w);
      Channel(WriteWord(c.regs, c.drive, w).0, WriteWord(c.regs, c.drive, w).1)
  }

  function Run(c: Channel, es: seq<Event>): (c': Channel)
    requires Sound(c)
    ensures Sound(c')
    decreases |es|
  {
    if es == [] then c else Step(Run(c, es[..|es| - 1]), es[|es| - 1])
  }

  // ----- Pending writes -----

  /** A write in progress: where, how many sectors, and the words received so far. */
  datatype Pending = Nothing | Collecting(lba: DWord, sectors: nat, words: seq<Word>)

  /** The first `n` words of a buffer. */
  function WordsOf(b: seq<Byte>, n: nat): seq<Word>
    requires 2 * n <= |b|
  {
    seq(n, i requires 0 <= i < n => WordAt(b, i))
  }

  ghost function Abstract(r: Regs, d: Option<Store>): Pending
    requires Valid(r, d)
  {
    if r.writing then Collecting(r.writeLba, |r.buf| / SECTOR, WordsOf(r.buf, r.bufPos / 2)) else Nothing
  }

  function Full(p: Pending): bool {
    p.Collecting? && |p.words| == 256 * p.sectors
  }

  /** The disk after a complete write: all its sectors, or none if they do not fit. */
  function Committed(p: Pending, d: Store): Store
    requires Full(p) && Sized(d)
  {
    if 0 < p.sectors && p.lba + p.sectors <= d.sectors then Write(d, p.lba, Flatten(p.words)) else d
  }

  /** A command that replaces the pending write: IDENTIFY, a READ that succeeds, a WRITE. */
  predicate Replaces(r: Regs, d: Option<Store>, e: Event) {
    e.SetReg? && e.reg == 7 && OpensBuffer(r, d, e.value)
  }

  predicate SoftReset(e: Event) {
    e.Control? && Bit(e.value, 0x04)
  }

  /**
   The pending write after an access. A word read while writing skips a zero word;
   a full list that was not completed by a write stays where it is.
   */
  function NextPending(p: Pending, r: Regs, d: Option<Store>, e: Event): Pending {
    if SoftReset(e) then Nothing
    else if Replaces(r, d, e) then
      if IsWrite(e.value) then Collecting(CurrentLba(r), SectorCount(r), []) else Nothing
    else if p.Collecting? && !Full(p) && (e.Pull? || e.Push?) then
      var next := p.(words := p.words + [if e.Push? then e.word else 0]);
      if e.Push? && Full(next) then Nothing else next
    else p
  }

  /** The disk changes only with the word that completes a pending write. */
  ghost function NextDisk(p: Pending, d: Option<Store>, e: Event): Option<Store>
    requires d.Some? ==> Sized(d.value)
  {
    if e.Push? && d.Some? && p.Collecting? && !Full(p) && Full(p.(words := p.words + [e.word]))
    then Some(Committed(p.(words := p.words + [e.word]), d.value))
    else d
  }

  lemma WordsPushed(b: seq<Byte>, k: nat, w: Word)
    requires 2 * k + 1 < |b|
    ensures WordsOf(b[2 * k := Low(w)][2 * k + 1 := High(w)], k + 1) == WordsOf(b, k) + [w]
  {
    var b' := b[2 * k := Low(w)][2 * k + 1 := High(w)];
    forall i | 0 <= i < k ensures WordAt(b', i) == WordAt(b, i) {
    }
    assert WordAt(b', k) == w;
  }

  lemma WordsPulled(b: seq<Byte>, k: nat)
    requires 2 * k + 1 < |b|
    ensures WordsOf(b, k + 1) == WordsOf(b, k) + [WordAt(b, k)]
  {
  }

  lemma WordsWhole(b: seq<Byte>)
    requires |b| % 2 == 0
    ensures Flatten(WordsOf(b, |b| / 2)) == b
  {
    FlattenUnique(b, WordsOf(b, |b| / 2));
  }

  /** A word that does not complete the write is appended to it. */
  lemma PushInside(r: Regs, d: Option<Store>, w: Word)
    requires Valid(r, d) && r.writing && r.bufPos + 2 < |r.buf|
    ensures Valid(WriteWord(r, d, w).0, d) && WriteWord(r, d, w).1 == d
    ensures Abstract(WriteWord(r, d, w).0, d)
            == Collecting(r.writeLba, |r.buf| / SECTOR, WordsOf(r.buf, r.bufPos / 2) + [w])
  {
    WriteKeepsValid(r, d, w);
    WordsPushed(r.buf, r.bufPos / 2, w);
  }

  lemma LastPushed(b: seq<Byte>, k: nat, w: Word)
    requires 2 * k + 2 == |b|
    ensures Flatten(WordsOf(b, k) + [w]) == b[2 * k := Low(w)][2 * k + 1 := High(w)]
  {
    WordsPushed(b, k, w);
    WordsWhole(b[2 * k := Low(w)][2 * k + 1 := High(w)]);
  }

  /** The last word commits the words received, or nothing. */
  lemma PushLast(r: Regs, d: Option<Store>, w: Word, k: nat, n: nat)
    requires Valid(r, d) && r.writing && r.bufPos == 2 * k && 2 * k + 2 == |r.buf| == n * SECTOR
    ensures var p := Collecting(r.writeLba, n, WordsOf(r.buf, k) + [w]);
            && Full(p) && !WriteWord(r, d, w).0.writing
            && WriteWord(r, d, w).1 == Some(Committed(p, d.value))
  {
    LastPushed(r.buf, k, w);
  }

  lemma PushRefines(r: Regs, d: Option<Store>, w: Word)
    requires Valid(r, d)
    ensures var (r', d') := WriteWord(r, d, w);
            && Valid(r', d')
            && Abstract(r', d') == NextPending(Abstract(r, d), r, d, Push(w))
            && d' == NextDisk(Abstract(r, d), d, Push(w))
  {
    WriteKeepsValid(r, d, w);
    if r.writing && r.bufPos + 2 < |r.buf| {
      PushInside(r, d, w);
    } else if r.writing && r.bufPos + 2 == |r.buf| {
      PushLast(r, d, w, r.bufPos / 2, |r.buf| / SECTOR);
    }
  }

  lemma PullRefines(r: Regs, d: Option<Store>)
    requires Valid(r, d)
    ensures var (r', w) := ReadWord(r);
            && Valid(r', d) && Abstract(r', d) == NextPending(Abstract(r, d), r, d, Pull)
            && (r.writing && r.bufPos < |r.buf| ==> w == 0)
  {
    ReadKeepsValid(r, d);
    if r.writing && r.bufPos + 1 < |r.buf| {
      WordsPulled(r.buf, r.bufPos / 2);
    }
  }

  lemma RegRefines(r: Regs, d: Option<Store>, reg: int, v: Byte)
    requires Valid(r, d)
    ensures var r' := WriteReg(r, d, reg, v);
            Valid(r', d) && Abstract(r', d) == NextPending(Abstract(r, d), r, d, SetReg(reg, v))
  {
    RegKeepsValid(r, d, reg, v);
    if reg == 7 && !OpensBuffer(r, d, v) {
      QuietCommand(r, d, v);
    }
  }

  /** Every access moves the pending write and the disk as the abstract machine does. */
  lemma StepRefines(c: Channel, e: Event)
    requires Sound(c)
    ensures Abstract(Step(c, e).regs, Step(c, e).drive)
            == NextPending(Abstract(c.regs, c.drive), c.regs, c.drive, e)
    ensures Step(c, e).drive == NextDisk(Abstract(c.regs, c.drive), c.drive, e)
  {
    match e
    case SetReg(reg, v) => RegRefines(c.regs, c.drive, reg, v);
    case Control(v) =>
    case Pull => PullRefines(c.regs, c.drive);
    case Push(w) => PushRefines(c.regs, c.drive, w);
  }

  /** Pending write and disk of the abstract machine over a run. */
  ghost function AbstractRun(c: Channel, es: seq<Event>): (Pending, Option<Store>)
    requires Sound(c)
    ensures AbstractRun(c, es).1.Some? ==> Sized(AbstractRun(c, es).1.value)
    decreases |es|
  {
    if es == [] then (Abstract(c.regs, c.drive), c.drive)
    else
      var n := |es| - 1;
      var (p, d) := AbstractRun(c, es[..n]);
      var before := Run(c, es[..n]);
      (NextPending(p, before.regs, before.drive, es[n]), NextDisk(p, d, es[n]))
  }

  /**
   Over any run of register, control and data accesses, buffer and disk behave like the
   abstract machine: a write reaches the disk only with its last word, as one update of
   exactly its sectors, and one that is reset or replaced before never does.
   */
  lemma {:induction false} RunRefines(c: Channel, es: seq<Event>)
    requires Sound(c)
    ensures AbstractRun(c, es) == (Abstract(Run(c, es).regs, Run(c, es).drive), Run(c, es).drive)
    decreases |es|
  {
    if es != [] {
      RunRefines(c, es[..|es| - 1]);
      StepRefines(Run(c, es[..|es| - 1]), es[|es| - 1]);
    }
  }

  /** The access that changes the disk, and how; a write that does not fit reports IDNF. */
  lemma CommitDiscipline(c: Channel, e: Event)
    requires Sound(c)
    ensures var p := Abstract(c.regs, c.drive);
            var c' := Step(c, e);
            && (c'.drive != c.drive ==>
                  && e.Push? && p.Collecting? && |p.words| + 1 == 256 * p.sectors
                  && p.lba + p.sectors <= c.drive.value.sectors
                  && c'.drive == Some(Write(c.drive.value, p.lba, Flatten(p.words + [e.word])))
                  && c'.regs.status == READY)
            && (e.Push? && p.Collecting? && |p.words| + 1 == 256 * p.sectors
                && c.drive.value.sectors < p.lba + p.sectors ==>
                  c'.drive == c.drive && c'.regs.status == FAILED && c'.regs.errReg == NOT_FOUND)
  {
    StepRefines(c, e);
  }

  /** The access starts a new write. */
  predicate StartsWrite(r: Regs, d: Option<Store>, e: Event) {
    Replaces(r, d, e) && IsWrite(e.value)
  }

  /** No access of the run starts a new write. */
  ghost predicate NoneStarts(c: Channel, es: seq<Event>)
    requires Sound(c)
  {
    forall i | 0 <= i < |es| :: !StartsWrite(Run(c, es[..i]).regs, Run(c, es[..i]).drive, es[i])
  }

  /** Without a pending write and until a new one starts, the disk does not change. */
  lemma {:induction false} NothingPending(c: Channel, es: seq<Event>)
    requires Sound(c) && !c.regs.writing
    requires NoneStarts(c, es)
    ensures Run(c, es).drive == c.drive && !Run(c, es).regs.writing
    decreases |es|
  {
    if es != [] {
      var before, e := es[..|es| - 1], es[|es| - 1];
      assert forall i | 0 <= i < |before| :: before[..i] == es[..i];
      NothingPending(c, before);
      StepRefines(Run(c, before), e);
    }
  }

  // ----- When a write commits -----

  predicate IsData(e: Event) {
    e.Pull? || e.Push?
  }

  /** The accesses to the data register, in order. */
  function DataOf(es: seq<Event>): seq<Event> {
    if es == [] then []
    else DataOf(es[..|es| - 1]) + if IsData(es[|es| - 1]) then [es[|es| - 1]] else []
  }

  /** What each access to the data register leaves in the buffer: a word read leaves its zero. */
  function WordsIn(data: seq<Event>): seq<Word> {
    seq(|data|, i requires 0 <= i < |data| => if data[i].Push? then data[i].word else 0)
  }

  /** The access is no reset, IDENTIFY, successful READ or new WRITE. */
  predicate Keeps(c: Channel, e: Event) {
    !SoftReset(e) && !Replaces(c.regs, c.drive, e)
  }

  /** No access of the run discards a pending write. */
  ghost predicate Undisturbed(c: Channel, es: seq<Event>)
    requires Sound(c)
    decreases |es|
  {
    es != [] ==> Undisturbed(c, es[..|es| - 1]) && Keeps(Run(c, es[..|es| - 1]), es[|es| - 1])
  }

  /** A write that was filled by a skipped word stays pending and never reaches the disk. */
  lemma {:induction false} SkippedNeverCommits(c: Channel, es: seq<Event>)
    requires Sound(c) && Full(Abstract(c.regs, c.drive)) && Undisturbed(c, es)
    ensures Run(c, es).drive == c.drive
    ensures Abstract(Run(c, es).regs, Run(c, es).drive) == Abstract(c.regs, c.drive)
    decreases |es|
  {
    if es != [] {
      SkippedNeverCommits(c, es[..|es| - 1]);
      StepRefines(Run(c, es[..|es| - 1]), es[|es| - 1]);
    }
  }

  /** Pending write and disk once a WRITE of `n` sectors has seen these data accesses. */
  ghost predicate Outcome(p: Pending, d: Option<Store>, lba: DWord, n: nat, d0: Store, data: seq<Event>)
    requires Sized(d0)
  {
    if |data| < 256 * n then p == Collecting(lba, n, WordsIn(data)) && d == Some(d0)
    else
      var all := Collecting(lba, n, WordsIn(data[..256 * n]));
      if 0 < n && data[256 * n - 1].Push? then p == Nothing && d == Some(Committed(all, d0))
      else p == all && d == Some(d0)
  }

  lemma WordsInSnoc(data: seq<Event>, e: Event)
    ensures WordsIn(data + [e]) == WordsIn(data) + [if e.Push? then e.word else 0]
  {
  }

  lemma OutcomeStep(p: Pending, r: Regs, lba: DWord, n: nat, d0: Store, d: Store, data: seq<Event>, e: Event)
    requires 0 < n && Sized(d0) && Sized(d) && Outcome(p, Some(d), lba, n, d0, data)
    requires !SoftReset(e) && !Replaces(r, Some(d), e)
    ensures Outcome(NextPending(p, r, Some(d), e), NextDisk(p, Some(d), e), lba, n, d0,
                    if IsData(e) then data + [e] else data)
  {
    if IsData(e) {
      WordsInSnoc(data, e);
      assert (data + [e])[..|data + [e]|] == data + [e];
      assert 256 * n <= |data| ==> (data + [e])[..256 * n] == data[..256 * n];
    }
  }

  ghost predicate Reached(c: Channel, lba: DWord, n: nat, d0: Store, data: seq<Event>)
    requires Sound(c) && Sized(d0)
  {
    c.drive.Some? && Outcome(Abstract(c.regs, c.drive), c.drive, lba, n, d0, data)
  }

  lemma OpenIsReached(c: Channel, lba: DWord, n: nat)
    requires Sound(c) && Abstract(c.regs, c.drive) == Collecting(lba, n, [])
    ensures 0 < n && c.drive.Some? && Sized(c.drive.value) && Reached(c, lba, n, c.drive.value, [])
  {
  }

  lemma ReachedStep(c: Channel, e: Event, lba: DWord, n: nat, d0: Store, data: seq<Event>)
    requires Sound(c) && 0 < n && Sized(d0) && Reached(c, lba, n, d0, data) && Keeps(c, e)
    ensures Reached(Step(c, e), lba, n, d0, if IsData(e) then data + [e] else data)
  {
    StepRefines(c, e);
    OutcomeStep(Abstract(c.regs, c.drive), c.regs, lba, n, d0, c.drive.value, data, e);
  }

  lemma ReachedNext(c: Channel, e: Event, c': Channel, lba: DWord, n: nat, d0: Store,
                    data: seq<Event>, data': seq<Event>)
    requires Sound(c) && 0 < n && Sized(d0) && Reached(c, lba, n, d0, data) && Keeps(c, e)
    requires c' == Step(c, e) && data' == data + if IsData(e) then [e] else []
    ensures Reached(c', lba, n, d0, data')
  {
    ReachedStep(c, e, lba, n, d0, data);
    assert data + [] == data;
  }

  lemma RunSnoc(c: Channel, es: seq<Event>)
    requires Sound(c) && es != []
    ensures Run(c, es) == Step(Run(c, es[..|es| - 1]), es[|es| - 1])
  {
  }

  /**
   When a WRITE commits, for any undisturbed run of accesses after it: exactly with the
   256 n-th access to the data register, and only if that one is a word written. The disk
   receives the words written with zero for every word read, or nothing if they do not fit.
   */
  lemma {:induction false} WriteCommitsIff(c: Channel, es: seq<Event>, lba: DWord, n: nat)
    requires Sound(c) && Abstract(c.regs, c.drive) == Collecting(lba, n, []) && Undisturbed(c, es)
    ensures 0 < n && c.drive.Some?
    ensures Sized(c.drive.value) && Reached(Run(c, es), lba, n, c.drive.value, DataOf(es))
    decreases |es|
  {
    OpenIsReached(c, lba, n);
    if es != [] {
      WriteCommitsIff(c, es[..|es| - 1], lba, n);
      RunSnoc(c, es);
      ReachedNext(Run(c, es[..|es| - 1]), es[|es| - 1], Run(c, es), lba, n, c.drive.value,
                  DataOf(es[..|es| - 1]), DataOf(es));
    }
  }

  lemma {:induction false} DataNeverDisturbs(c: Channel, es: seq<Event>)
    requires Sound(c) && forall i | 0 <= i < |es| :: IsData(es[i])
    ensures Undisturbed(c, es)
    decreases |es|
  {
    if es != [] {
      DataNeverDisturbs(c, es[..|es| - 1]);
    }
  }

  lemma {:induction false} OnlyData(es: seq<Event>)
    requires forall i | 0 <= i < |es| :: IsData(es[i])
    ensures DataOf(es) == es
  {
    if es != [] {
      OnlyData(es[..|es| - 1]);
      assert es == es[..|es| - 1] + [es[|es| - 1]];
    }
  }

  /**
   A WRITE followed by as many data accesses as it has words updates the disk iff the last
   one is a word written; if that word was read instead, nothing that follows commits it.
   */
  lemma LastAccessDecides(c: Channel, es: seq<Event>, later: seq<Event>, lba: DWord, n: nat)
    requires Sound(c) && Abstract(c.regs, c.drive) == Collecting(lba, n, []) && |es| == 256 * n
    requires forall i | 0 <= i < |es| :: IsData(es[i])
    ensures 0 < n && c.drive.Some?
    ensures es[256 * n - 1].Push? && lba + n <= c.drive.value.sectors ==>
              Run(c, es).drive == Some(Write(c.drive.value, lba, Flatten(WordsIn(es))))
    ensures es[256 * n - 1].Pull? && Undisturbed(Run(c, es), later) ==>
              Run(c, es).drive == c.drive && Run(Run(c, es), later).drive == c.drive
  {
    DataNeverDisturbs(c, es);
    WriteCommitsIff(c, es, lba, n);
    OnlyData(es);
    assert es[..256 * n] == es;
    if es[256 * n - 1].Pull? && Undisturbed(Run(c, es), later) {
      SkippedNeverCommits(Run(c, es), later);
    }
  }

  // ----- What a commit contains -----

  lemma {:induction false} RunAppend(c: Channel, xs: seq<Event>, ys: seq<Event>)
    requires Sound(c)
    ensures Run(c, xs + ys) == Run(Run(c, xs), ys)
    decreases |ys|
  {
    if ys == [] {
      assert xs + ys == xs;
    } else {
      RunAppend(c, xs, ys[..|ys| - 1]);
      assert (xs + ys)[..|xs + ys| - 1] == xs + ys[..|ys| - 1];
    }
  }

  /** After `front` a WRITE starts that no access of `rest` discards. */
  ghost predicate LastWrite(c: Channel, front: seq<Event>, start: Event, rest: seq<Event>)
    requires Sound(c)
  {
    && StartsWrite(Run(c, front).regs, Run(c, front).drive, start)
    && Undisturbed(Step(Run(c, front), start), rest)
  }

  /** The write that starts after `front`, once it has these words. */
  ghost function WriteAfter(c: Channel, front: seq<Event>, words: seq<Word>): Pending
    requires Sound(c)
  {
    var at := Run(c, front).regs;
    Collecting(CurrentLba(at), SectorCount(at), words)
  }

  lemma RunSplit(c: Channel, front: seq<Event>, start: Event, rest: seq<Event>)
    requires Sound(c)
    ensures Run(c, front + [start] + rest) == Run(Step(Run(c, front), start), rest)
  {
    RunAppend(c, front + [start], rest);
    assert (front + [start])[..|front|] == front;
  }

  lemma UndisturbedSnoc(c: Channel, es: seq<Event>, now: Channel, e: Event)
    requires Sound(c) && Undisturbed(c, es) && now == Run(c, es) && Keeps(now, e)
    ensures Undisturbed(c, es + [e])
  {
    assert (es + [e])[..|es|] == es;
  }

  lemma LastWriteGoesOn(c: Channel, front: seq<Event>, start: Event, rest: seq<Event>, e: Event)
    requires Sound(c) && LastWrite(c, front, start, rest)
    requires Keeps(Run(c, front + [start] + rest), e)
    ensures LastWrite(c, front, start, rest + [e])
  {
    RunSplit(c, front, start, rest);
    UndisturbedSnoc(Step(Run(c, front), start), rest, Run(c, front + [start] + rest), e);
  }

  lemma AccessKeepsWriting(c: Channel, e: Event)
    requires Sound(c) && Step(c, e).regs.writing
    ensures Keeps(c, e) ==> c.regs.writing
    ensures !Keeps(c, e) ==> StartsWrite(c.regs, c.drive, e)
  {
    StepRefines(c, e);
  }

  /** A pending write was started by a WRITE of the run, and not discarded since. */
  lemma {:induction false} PendingSince(c: Channel, es: seq<Event>)
      returns (front: seq<Event>, start: Event, rest: seq<Event>)
    requires Sound(c) && !c.regs.writing && Run(c, es).regs.writing
    ensures es == front + [start] + rest && LastWrite(c, front, start, rest)
    decreases |es|
  {
    var before, e := es[..|es| - 1], es[|es| - 1];
    RunSnoc(c, es);
    AccessKeepsWriting(Run(c, before), e);
    assert es == before + [e];
    if Keeps(Run(c, before), e) {
      front, start, rest := PendingSince(c, before);
      LastWriteGoesOn(c, front, start, rest, e);
      rest := rest + [e];
    } else {
      front, start, rest := before, e, [];
    }
  }

  lemma WriteOpens(c: Channel, e: Event)
    requires Sound(c) && StartsWrite(c.regs, c.drive, e)
    ensures Abstract(Step(c, e).regs, Step(c, e).drive) == Collecting(CurrentLba(c.regs), SectorCount(c.regs), [])
  {
    StepRefines(c, e);
  }

  lemma CollectedSince(from: Channel, rest: seq<Event>, now: Channel, lba: DWord, n: nat)
    requires Sound(from) && Abstract(from.regs, from.drive) == Collecting(lba, n, []) && Undisturbed(from, rest)
    requires now == Run(from, rest)
    ensures var p := Abstract(now.regs, now.drive);
            p.Collecting? && !Full(p) ==> p == Collecting(lba, n, WordsIn(DataOf(rest)))
  {
    WriteCommitsIff(from, rest, lba, n);
  }

  /** As long as it is not full, the pending write has the words of the data accesses since its WRITE. */
  lemma PendingWords(c: Channel, front: seq<Event>, start: Event, rest: seq<Event>)
    requires Sound(c) && LastWrite(c, front, start, rest)
    ensures var now := Run(c, front + [start] + rest);
            var p := Abstract(now.regs, now.drive);
            p.Collecting? && !Full(p) ==> p == WriteAfter(c, front, WordsIn(DataOf(rest)))
  {
    var p := WriteAfter(c, front, []);
    WriteOpens(Run(c, front), start);
    RunSplit(c, front, start, rest);
    CollectedSince(Step(Run(c, front), start), rest, Run(c, front + [start] + rest), p.lba, p.sectors);
  }

  /** The disk `d'` is `d` with the sectors of the complete write replaced by its words. */
  ghost predicate Stores(p: Pending, d: Option<Store>, d': Option<Store>) {
    && d.Some? && Sized(d.value) && Full(p) && p.lba + p.sectors <= d.value.sectors
    && d' == Some(Write(d.value, p.lba, Flatten(p.words)))
  }

  /**
   Whenever an access changes the disk, it is a word written, the sectors are those of the
   last WRITE command, which nothing discarded, and the words are exactly those of the data
   accesses since then, this one included.
   */
  lemma CommitsLastWrite(c: Channel, es: seq<Event>, e: Event)
      returns (front: seq<Event>, start: Event, rest: seq<Event>)
    requires Sound(c) && !c.regs.writing
    requires Step(Run(c, es), e).drive != Run(c, es).drive
    ensures e.Push? && es == front + [start] + rest && LastWrite(c, front, start, rest)
    ensures Stores(WriteAfter(c, front, WordsIn(DataOf(rest) + [e])), Run(c, es).drive, Step(Run(c, es), e).drive)
  {
    CommitDiscipline(Run(c, es), e);
    front, start, rest := PendingSince(c, es);
    PendingWords(c, front, start, rest);
    WordsInSnoc(DataOf(rest), e);
  }

  /**
   A discarded write is lost for good: after a reset, an IDENTIFY or a successful READ the
   disk keeps its contents until a new WRITE, and after a new WRITE it receives only what
   that one is sent.
   */
  lemma DiscardedIsLost(c: Channel, e: Event, es: seq<Event>)
    requires Sound(c) && !Keeps(c, e)
    ensures !StartsWrite(c.regs, c.drive, e) && NoneStarts(Step(c, e), es) ==> Run(Step(c, e), es).drive == c.drive
    ensures StartsWrite(c.regs, c.drive, e) && Undisturbed(Step(c, e), es) ==>
              && c.drive.Some? && Sized(c.drive.value)
              && Reached(Run(Step(c, e), es), CurrentLba(c.regs), SectorCount(c.regs), c.drive.value, DataOf(es))
  {
    StepRefines(c, e);
    if StartsWrite(c.regs, c.drive, e) {
      if Undisturbed(Step(c, e), es) {
        WriteCommitsIff(Step(c, e), es, CurrentLba(c.regs), SectorCount(c.regs));
      }
    } else if NoneStarts(Step(c, e), es) {
      NothingPending(Step(c, e), es);
    }
  }
}
