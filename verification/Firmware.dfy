/** A firmware image sent to a drive in chunks: WRITE BUFFER under one transfer
    mode (deferred 0x0E, or 0x07 where that is refused), or the Firmware Image
    Download of NVMe. The drive answers as it likes. */
module Firmware {
  import opened Common
  import opened Buffers

  // ------------------------------------------------ chunks

  function ChunkLen(configured: nat, boundary: nat): (c: nat)
    ensures c >= 512
  {
    var c := if configured < 512 then 512 else configured;
    if boundary == 0 then c
    else
      RoundedUp(c, boundary);
      (c + boundary - 1) / boundary * boundary
  }

  lemma {:induction false} RoundedUp(c: nat, b: nat)
    requires b > 0
    ensures var r := (c + b - 1) / b * b; c <= r < c + b && r % b == 0
  {
    var q, m := (c + b - 1) / b, (c + b - 1) % b;
    assert c + b - 1 == q * b + m;
    MultipleOf(q, b);
  }

  lemma {:induction false} MultipleOf(q: nat, b: nat)
    requires b > 0
    ensures q * b % b == 0
  {
    var n, r := q * b / b, q * b % b;
    assert q * b == n * b + r;
    if n < q { Multiply(n + 1, q, b); } else if n > q { Multiply(q + 1, n, b); }
  }

  /** The smallest multiple of the drive's boundary not under the size asked
      for, which is never under 512. */
  lemma {:induction false} ChunkLenLeast(configured: nat, boundary: nat, other: nat)
    requires boundary > 0 && other % boundary == 0 && other >= configured && other >= 512
    ensures var c := ChunkLen(configured, boundary);
      c % boundary == 0 && configured <= c <= other
  {
    var want := if configured < 512 then 512 else configured;
    RoundedUp(want, boundary);
    var c := ChunkLen(configured, boundary);
    if c > other {
      var q, p := c / boundary, other / boundary;
      assert c == q * boundary && other == p * boundary;
      Ordered(p, q, boundary);
    }
  }

  lemma {:induction false} Ordered(p: nat, q: nat, b: nat)
    requires p * b < q * b
    ensures (p + 1) * b <= q * b
  {
    if q <= p { Multiply(q, p, b); } else { Multiply(p + 1, q, b); }
  }

  function End(off: nat, chunk: nat, size: nat): nat { if off + chunk < size then off + chunk else size }

  // ------------------------------------------------ what was sent

  /** One more than what the three bytes of a WRITE BUFFER field hold. */
  const WIRE: nat := 0x100_0000

  /** `offset` and `length` are those in the command, `data` what is
      transferred with it. */
  datatype Command =
    | Write(mode: nat, offset: nat, length: nat, data: Bytes)
    | Activate
    | Download(numd: nat, ofst: nat, data: Bytes)

  datatype Answer = Good | Illegal | Fails

  /** The commands the drive accepted. */
  function Accepted(log: seq<(Command, Answer)>): seq<Command>
    decreases |log|
  {
    if log == [] then []
    else
      var e := log[|log| - 1];
      Accepted(log[..|log| - 1]) + if e.1 == Good then [e.0] else []
  }

  lemma {:induction false} AcceptedSnoc(log: seq<(Command, Answer)>, c: Command, a: Answer)
    ensures Accepted(log + [(c, a)]) == Accepted(log) + if a == Good then [c] else []
  {
    assert (log + [(c, a)])[..|log|] == log;
  }

  /** What is left of a number in three bytes. */
  function Low(n: nat): (l: nat)
    ensures l <= n && (l == n <==> n < WIRE)
  {
    n % WIRE
  }

  /** The WRITE BUFFER command block: of either number the low three bytes. */
  function WriteBufferCdb(mode: nat, offset: nat, length: nat): (c: Bytes)
    requires mode < 32
    ensures |c| == 10
  {
    [0x3b, Byte(mode), 0] + Be(offset, 4)[1..] + Be(length, 4)[1..] + [0]
  }

  lemma {:induction false} LowBytes(n: nat, k: nat)
    ensures Be(n, k + 1)[1..] == Be(n, k)
    decreases k
  {
    hide Byte;
    if k > 0 { LowBytes(n / 256, k - 1); }
  }

  lemma {:induction false} BeStep(n: nat, k: nat)
    requires k > 0
    ensures FromBe(Be(n, k)) == 256 * FromBe(Be(n / 256, k - 1)) + n % 256
  {
    hide Byte, Val;
    ByteVal(n % 256);
    assert Be(n, k)[..k - 1] == Be(n / 256, k - 1);
  }

  lemma {:induction false} LowThree(n: nat, a: nat, b: nat, c: nat)
    requires a == n / 256 && b == a / 256 && c == b / 256
    ensures n % WIRE == 256 * (256 * (b % 256) + a % 256) + n % 256
  {
    assert n == 256 * a + n % 256 && a == 256 * b + a % 256 && b == 256 * c + b % 256;
    var low := 256 * (256 * (b % 256) + a % 256) + n % 256;
    assert n == WIRE * c + low && 0 <= low < WIRE;
  }

  lemma {:induction false} ThreeBytes(n: nat)
    ensures FromBe(Be(n, 3)) == Low(n)
  {
    assert FromBe(Be(n / 256 / 256 / 256, 0)) == 0;
    hide Be, FromBe;
    BeStep(n, 3);
    BeStep(n / 256, 2);
    BeStep(n / 256 / 256, 1);
    LowThree(n, n / 256, n / 256 / 256, n / 256 / 256 / 256);
  }

  lemma {:induction false} CdbParts(front: Bytes, a: Bytes, b: Bytes, end: Bytes)
    requires |front| == |a| == |b| == 3
    ensures var c := front + a + b + end; c[3..6] == a && c[6..9] == b && c[1] == front[1]
  {
  }

  /** What a drive reads in the command: both numbers only modulo 2^24. */
  lemma {:induction false} CdbCarries(mode: nat, offset: nat, length: nat)
    requires mode < 32
    ensures var c := WriteBufferCdb(mode, offset, length);
      Val(c[1]) == mode && FromBe(c[3..6]) == Low(offset) && FromBe(c[6..9]) == Low(length)
    // the operation code, buffer 0, no control byte
    ensures var c := WriteBufferCdb(mode, offset, length);
      c[0] == 0x3b && c[2] == 0 && c[9] == 0
  {
    hide Be, FromBe, Val, Byte;
    CdbParts([0x3b, Byte(mode), 0], Be(offset, 4)[1..], Be(length, 4)[1..], [0]);
    LowBytes(offset, 3);
    LowBytes(length, 3);
    ThreeBytes(offset);
    ThreeBytes(length);
    ByteVal(mode);
  }

  /** A chunk as the drive gets it. */
  function Wired(mode: nat, off: nat, data: Bytes): Command { Write(mode, Low(off), Low(|data|), data) }

  /** The writes of the image, from `off` on. */
  function Writes(image: Bytes, mode: nat, chunk: nat, off: nat): seq<Command>
    requires chunk >= 1 && off <= |image|
    decreases |image| - off
  {
    if off == |image| then []
    else [Wired(mode, off, image[off..End(off, chunk, |image|)])] + Writes(image, mode, chunk, End(off, chunk, |image|))
  }

  /** What the drive takes of a write: as much as the command says. */
  function Given(c: Command): Bytes
    requires c.Write?
  {
    c.data[..Min(c.length, |c.data|)]
  }

  /** What a drive has that takes each write only under the one mode and where
      the last one ended. */
  function Buffer(writes: seq<Command>, mode: nat, have: Bytes): Option<Bytes>
    decreases |writes|
  {
    if writes == [] then Some(have)
    else if !writes[0].Write? || writes[0].mode != mode || writes[0].offset != |have| then None
    else Buffer(writes[1..], mode, have + Given(writes[0]))
  }

  /** `data` over what is there, from `off` on. */
  function Over(have: Bytes, off: nat, data: Bytes): (b: Bytes)
    ensures |b| == Max(|have|, off + |data|)
  {
    (if off <= |have| then have[..off] else have + Zeros(off - |have|)) + data
      + if off + |data| < |have| then have[off + |data|..] else []
  }

  /** What a drive has that puts each write where its command says. */
  function Stored(writes: seq<Command>, have: Bytes): Bytes
    decreases |writes|
  {
    if writes == [] then have
    else Stored(writes[1..], if writes[0].Write? then Over(have, writes[0].offset, Given(writes[0])) else have)
  }

  // ------------------------------------------------ which images arrive

  /** Where the last chunk starts. */
  function LastStart(n: nat, chunk: nat): (l: nat)
    requires n >= 1 && chunk >= 1
    ensures l < n <= l + chunk
  {
    assert n - 1 == (n - 1) / chunk * chunk + (n - 1) % chunk;
    (n - 1) / chunk * chunk
  }

  /** The last chunk starts below 2^24 and is shorter than that. */
  predicate Fits(n: nat, chunk: nat)
    requires chunk >= 1
  {
    n >= 1 ==> LastStart(n, chunk) < WIRE && n - LastStart(n, chunk) < WIRE
  }

  /** For a chunk that divides 16 MiB that is a matter of the size alone. */
  lemma {:induction false} FitsBySize(n: nat, chunk: nat, times: nat)
    requires chunk >= 1 && times * chunk == WIRE
    ensures Fits(n, chunk) <==> if times == 1 then n < WIRE else n <= WIRE
  {
    if n >= 1 {
      var q := (n - 1) / chunk;
      if q >= times { Multiply(times, q, chunk); } else { Multiply(q + 1, times, chunk); }
      if times >= 2 { Multiply(2, times, chunk); }
    }
  }

  /** The same, chunk by chunk. */
  function LastFrom(n: nat, chunk: nat, off: nat): (l: nat)
    requires chunk >= 1 && off < n
    ensures off <= l < n <= l + chunk
    decreases n - off
  {
    if off + chunk < n then LastFrom(n, chunk, off + chunk) else off
  }

  lemma {:induction false} LastIsLast(n: nat, chunk: nat, q: nat)
    requires chunk >= 1 && q * chunk < n
    ensures LastFrom(n, chunk, q * chunk) == LastStart(n, chunk)
    decreases n - q * chunk
  {
    if q * chunk + chunk < n {
      assert (q + 1) * chunk == q * chunk + chunk;
      LastIsLast(n, chunk, q + 1);
    } else {
      QuotientIs(n - 1, chunk, q, n - 1 - q * chunk);
    }
  }

  /** What the drive takes of the chunk at `off`. */
  function Taken(image: Bytes, chunk: nat, off: nat): (g: Bytes)
    requires chunk >= 1 && off < |image|
    ensures |g| == Low(End(off, chunk, |image|) - off)
  {
    image[off..off + Low(End(off, chunk, |image|) - off)]
  }

  lemma {:induction false} OneWrite(image: Bytes, mode: nat, chunk: nat, off: nat)
    requires chunk >= 1 && off < |image|
    ensures var w := Writes(image, mode, chunk, off);
      && w != [] && w[0].Write? && w[0].mode == mode && w[0].offset == Low(off) && Given(w[0]) == Taken(image, chunk, off)
      && w[1..] == Writes(image, mode, chunk, End(off, chunk, |image|))
  {
    hide Low;
    WritesStep(image, mode, chunk, off);
  }

  /** One chunk, taken either way. */
  lemma {:induction false} OneBuffered(image: Bytes, mode: nat, chunk: nat, off: nat, have: Bytes)
    requires chunk >= 1 && off < |image|
    ensures Buffer(Writes(image, mode, chunk, off), mode, have)
      == (if Low(off) == |have| then Buffer(Writes(image, mode, chunk, End(off, chunk, |image|)), mode, have + Taken(image, chunk, off)) else None)
  {
    OneWrite(image, mode, chunk, off);
    hide Writes, End, Low, Taken, Given;
  }

  lemma {:induction false} OneStored(image: Bytes, mode: nat, chunk: nat, off: nat, have: Bytes)
    requires chunk >= 1 && off < |image|
    ensures Stored(Writes(image, mode, chunk, off), have)
      == Stored(Writes(image, mode, chunk, End(off, chunk, |image|)), Over(have, Low(off), Taken(image, chunk, off)))
  {
    OneWrite(image, mode, chunk, off);
    hide Writes, Over, End, Low, Taken, Given;
  }

  lemma {:induction false} InPlace(image: Bytes, off: nat, end: nat)
    requires off <= end <= |image|
    ensures Over(image[..off], off, image[off..end]) == image[..end] && image[..off] + image[off..end] == image[..end]
  {
  }

  predicate LastFits(n: nat, chunk: nat, off: nat)
    requires chunk >= 1 && off < n
  {
    LastFrom(n, chunk, off) < WIRE && n - LastFrom(n, chunk, off) < WIRE
  }

  lemma {:induction false} LastFitsStep(n: nat, chunk: nat, off: nat)
    requires chunk >= 1 && off < n
    ensures if End(off, chunk, n) < n then LastFits(n, chunk, off) <==> LastFits(n, chunk, End(off, chunk, n))
            else LastFits(n, chunk, off) <==> off < WIRE && n - off < WIRE
    ensures LastFits(n, chunk, off) ==> off < WIRE && End(off, chunk, n) - off < WIRE
  {
  }

  /** The chunks from here on, when the last one fits. */
  lemma {:induction false} FittingArrives(image: Bytes, mode: nat, chunk: nat, off: nat)
    requires chunk >= 1 && off < |image| && LastFits(|image|, chunk, off)
    ensures Buffer(Writes(image, mode, chunk, off), mode, image[..off]) == Some(image)
    ensures Stored(Writes(image, mode, chunk, off), image[..off]) == image
    decreases |image| - off
  {
    var end := End(off, chunk, |image|);
    LastFitsStep(|image|, chunk, off);
    EndAhead(off, chunk, |image|);
    OneBuffered(image, mode, chunk, off, image[..off]);
    OneStored(image, mode, chunk, off, image[..off]);
    InPlace(image, off, end);
    hide Writes, Buffer, Stored, Over, LastFits, End, Low;
    if end < |image| {
      FittingArrives(image, mode, chunk, end);
    } else {
      NoMoreTaken(image, mode, chunk, image[..end]);
      assert image[..end] == image;
    }
  }

  lemma {:induction false} NoMoreTaken(image: Bytes, mode: nat, chunk: nat, have: Bytes)
    requires chunk >= 1
    ensures Buffer(Writes(image, mode, chunk, |image|), mode, have) == Some(have)
    ensures Stored(Writes(image, mode, chunk, |image|), have) == have
  {
  }

  /** And when it does not: whatever came before, too little is there. */
  lemma {:induction false} BufferedShort(image: Bytes, mode: nat, chunk: nat, off: nat, have: Bytes)
    requires chunk >= 1 && off < |image| && !LastFits(|image|, chunk, off) && |have| <= off
    ensures var r := Buffer(Writes(image, mode, chunk, off), mode, have); r.Some? ==> |r.value| < |image|
    decreases |image| - off
  {
    var end := End(off, chunk, |image|);
    LastFitsStep(|image|, chunk, off);
    EndAhead(off, chunk, |image|);
    OneBuffered(image, mode, chunk, off, have);
    hide Writes, Buffer, LastFits, End, Low, Taken;
    if Low(off) == |have| {
      var next := have + Taken(image, chunk, off);
      if end < |image| { BufferedShort(image, mode, chunk, end, next); } else { NoMoreTaken(image, mode, chunk, next); }
    }
  }

  lemma {:induction false} StoredShort(image: Bytes, mode: nat, chunk: nat, off: nat, have: Bytes)
    requires chunk >= 1 && off < |image| && !LastFits(|image|, chunk, off) && |have| <= off
    ensures |Stored(Writes(image, mode, chunk, off), have)| < |image|
    decreases |image| - off
  {
    var end := End(off, chunk, |image|);
    LastFitsStep(|image|, chunk, off);
    EndAhead(off, chunk, |image|);
    OneStored(image, mode, chunk, off, have);
    hide Writes, Stored, Over, LastFits, End, Low, Taken;
    var next := Over(have, Low(off), Taken(image, chunk, off));
    if end < |image| { StoredShort(image, mode, chunk, end, next); } else { NoMoreTaken(image, mode, chunk, next); }
  }

  /** The chunks, all accepted under one mode, are the image on the drive
      exactly if the last of them fits the command, whichever way the drive
      goes by their offsets. */
  lemma {:induction false} WritesAreImage(image: Bytes, mode: nat, chunk: nat)
    requires chunk >= 1
    ensures Buffer(Writes(image, mode, chunk, 0), mode, []) == Some(image) <==> Fits(|image|, chunk)
    ensures Stored(Writes(image, mode, chunk, 0), []) == image <==> Fits(|image|, chunk)
  {
    assert image[..0] == [];
    if image == [] {
      NoMoreTaken(image, mode, chunk, []);
    } else {
      assert 0 * chunk == 0;
      LastIsLast(|image|, chunk, 0);
      if LastFits(|image|, chunk, 0) {
        FittingArrives(image, mode, chunk, 0);
      } else {
        BufferedShort(image, mode, chunk, 0, []);
        StoredShort(image, mode, chunk, 0, []);
      }
    }
  }

  // ------------------------------------------------ a run over SCSI

  /** All of them accepted. */
  function AllGood(cs: seq<Command>): seq<(Command, Answer)> { seq(|cs|, i requires 0 <= i < |cs| => (cs[i], Good)) }

  /** The commands of `full` one after another, up to the first that is not
      answered good; `ok` if there is none. */
  ghost predicate GoesTo(sent: seq<(Command, Answer)>, full: seq<Command>, ok: bool) {
    && |sent| <= |full| && (forall k :: 0 <= k < |sent| ==> sent[k].0 == full[k])
    && (forall k :: 0 <= k < |sent| - 1 ==> sent[k].1 == Good)
    && (ok <==> |sent| == |full| && (sent != [] ==> sent[|sent| - 1].1 == Good))
    && (!ok ==> sent != [] && sent[|sent| - 1].1 != Good)
  }

  lemma {:induction false} GoodMore(done: seq<Command>, c: Command)
    ensures AllGood(done) + [(c, Good)] == AllGood(done + [c])
  {
  }

  lemma {:induction false} StopsHere(done: seq<Command>, c: Command, a: Answer, rest: seq<Command>)
    requires a != Good
    ensures GoesTo(AllGood(done) + [(c, a)], done + ([c] + rest), false)
  {
  }

  lemma {:induction false} AllTheWay(full: seq<Command>)
    ensures GoesTo(AllGood(full), full, true)
  {
  }

  lemma {:induction false} GoesFurther(sent: seq<(Command, Answer)>, full: seq<Command>, more: seq<Command>)
    requires GoesTo(sent, full, false)
    ensures GoesTo(sent, full + more, false)
  {
  }

  /** What was sent once the mode was settled. */
  function Settled(log: seq<(Command, Answer)>, mode: nat): seq<(Command, Answer)> {
    if mode == 0x07 && log != [] then log[1..] else log
  }

  /** What the answers make of a SCSI run: the mode is 0x07 exactly if the first
      chunk was answered ILLEGAL REQUEST under 0x0E, and from then on it is a
      success exactly if every chunk, and the activation where there is one,
      was sent and answered good. */
  ghost predicate ScsiTold(image: Bytes, chunk: nat, log: seq<(Command, Answer)>, mode: nat, ok: bool)
    requires chunk >= 1
  {
    && (mode == 0x07 || mode == 0x0E)
    && (image != [] ==> log != [] && log[0].0 == Wired(0x0E, 0, image[..End(0, chunk, |image|)]))
    && (mode == 0x07 <==> image != [] && log[0].1 == Illegal)
    && GoesTo(Settled(log, mode), Writes(image, mode, chunk, 0) + (if mode == 0x0E then [Activate] else []), ok)
  }

  /** What the log of a SCSI run is. */
  ghost predicate ScsiRun(image: Bytes, chunk: nat, log: seq<(Command, Answer)>, mode: nat, ok: bool)
    requires chunk >= 1
  {
    var all := Writes(image, mode, chunk, 0);
    && (mode == 0x0E || mode == 0x07)
    // every chunk of the image was accepted, and activated where that is a command of its own
    && (ok ==> Accepted(log) == all + if mode == 0x0E then [Activate] else [])
    // what was accepted otherwise is a beginning of them
    && (!ok ==> Accepted(log) <= all)
    // never activated over less than all of them
    && (forall k :: 0 <= k < |log| && log[k].0 == Activate ==> mode == 0x0E && k == |log| - 1 && Accepted(log[..k]) == all)
    // 0x07 only because the drive refused the first chunk under 0x0E
    && (mode == 0x07 ==> log != [] && log[0].1 == Illegal && image != [] && log[0].0 == Writes(image, 0x0E, chunk, 0)[0])
  }

  /** The first chunk, which settles the mode. */
  method FirstChunk(image: Bytes, chunk: nat) returns (log: seq<(Command, Answer)>, mode: nat, ok: bool)
    requires chunk >= 1 && image != []
    ensures mode == 0x0E || mode == 0x07
    ensures var c := Wired(mode, 0, image[..End(0, chunk, |image|)]);
      var refused := (c.(mode := 0x0E), Illegal);
      && (mode == 0x0E ==> |log| == 1 && log[0].0 == c && log[0].1 != Illegal && (ok <==> log[0].1 == Good))
      && (mode == 0x07 ==> |log| == 2 && log[0] == refused && log[1].0 == c && (ok <==> log[1].1 == Good))
  {
    var data := image[..End(0, chunk, |image|)];
    var a: Answer := *;
    log, mode, ok := [(Wired(0x0E, 0, data), a)], 0x0E, a == Good;
    if a == Illegal {
      var b: Answer := *;
      log, mode, ok := log + [(Wired(0x07, 0, data), b)], 0x07, b == Good;
    }
  }

  lemma {:induction false} FirstAccepted(log: seq<(Command, Answer)>)
    ensures |log| == 1 ==> Accepted(log) == if log[0].1 == Good then [log[0].0] else []
    ensures |log| == 2 && log[0].1 == Illegal ==> Accepted(log) == if log[1].1 == Good then [log[1].0] else []
  {
    if |log| == 2 {
      assert log[..1][..0] == [] && log[..1][0] == log[0];
      assert Accepted(log[..1]) == Accepted(log[..1][..0]) + if log[0].1 == Good then [log[0].0] else [];
    }
  }

  lemma {:induction false} WritesStep(image: Bytes, mode: nat, chunk: nat, off: nat)
    requires chunk >= 1 && off < |image|
    ensures Writes(image, mode, chunk, off)
      == [Wired(mode, off, image[off..End(off, chunk, |image|)])] + Writes(image, mode, chunk, End(off, chunk, |image|))
  {
  }

  lemma {:induction false} OneMore(all: seq<Command>, have: seq<Command>, c: Command, rest: seq<Command>)
    requires all == have + ([c] + rest)
    ensures all == (have + [c]) + rest && have + [c] <= all
  {
  }

  ghost predicate NoActivation(log: seq<(Command, Answer)>) { forall k :: 0 <= k < |log| ==> log[k].0 != Activate }

  /** The other chunks, under the mode the first one settled. */
  method OtherChunks(image: Bytes, chunk: nat, mode: nat, start: nat, before: seq<(Command, Answer)>)
    returns (log: seq<(Command, Answer)>, ok: bool)
    requires chunk >= 1 && start <= |image| && NoActivation(before) && before != []
    requires Writes(image, mode, chunk, 0) == Accepted(before) + Writes(image, mode, chunk, start)
    requires Settled(before, mode) == AllGood(Accepted(before))
    ensures GoesTo(Settled(log, mode), Writes(image, mode, chunk, 0), ok)
    ensures ok ==> Settled(log, mode) == AllGood(Writes(image, mode, chunk, 0))
    ensures before <= log && NoActivation(log)
    ensures Accepted(log) <= Writes(image, mode, chunk, 0)
    ensures ok ==> Accepted(log) == Writes(image, mode, chunk, 0)
  {
    hide Writes, Accepted, End, AllGood, GoesTo;
    ghost var all := Writes(image, mode, chunk, 0);
    var off := start;
    log, ok := before, true;
    while off < |image| && ok
      invariant off <= |image| && before <= log && NoActivation(log)
      invariant Accepted(log) <= all
      invariant if ok then Settled(log, mode) == AllGood(Accepted(log)) else GoesTo(Settled(log, mode), all, false)
      invariant ok ==> all == Accepted(log) + Writes(image, mode, chunk, off)
      decreases |image| - off, ok
    {
      EndAhead(off, chunk, |image|);
      var end := End(off, chunk, |image|);
      var c := Wired(mode, off, image[off..end]);
      var a: Answer := *;
      AcceptedSnoc(log, c, a);
      WritesStep(image, mode, chunk, off);
      OneMore(all, Accepted(log), c, Writes(image, mode, chunk, end));
      GoodMore(Accepted(log), c);
      if a != Good { StopsHere(Accepted(log), c, a, Writes(image, mode, chunk, end)); }
      assert Settled(log + [(c, a)], mode) == Settled(log, mode) + [(c, a)];
      log := log + [(c, a)];
      if a == Good { off := end; } else { ok := false; }
    }
    if ok {
      NoMoreWrites(image, mode, chunk);
      assert Accepted(log) == all;
      AllTheWay(all);
    }
  }

  lemma {:induction false} EndAhead(off: nat, chunk: nat, size: nat)
    requires off < size && chunk >= 1
    ensures off < End(off, chunk, size) <= size
  {
  }

  lemma {:induction false} NoMoreWrites(image: Bytes, mode: nat, chunk: nat)
    requires chunk >= 1
    ensures Writes(image, mode, chunk, |image|) == []
  {
  }

  /** Where a download leaves things, whichever mode it came to. */
  ghost predicate Downloaded(image: Bytes, chunk: nat, log: seq<(Command, Answer)>, mode: nat, ok: bool)
    requires chunk >= 1
  {
    && (mode == 0x0E || mode == 0x07) && NoActivation(log)
    && Accepted(log) <= Writes(image, mode, chunk, 0)
    && (ok ==> Accepted(log) == Writes(image, mode, chunk, 0))
    && (mode == 0x07 ==> log != [] && log[0].1 == Illegal && image != [] && log[0].0 == Writes(image, 0x0E, chunk, 0)[0])
    && GoesTo(Settled(log, mode), Writes(image, mode, chunk, 0), ok)
    && (ok ==> Settled(log, mode) == AllGood(Writes(image, mode, chunk, 0)))
    && (image != [] ==> log != [] && log[0].0 == Wired(0x0E, 0, image[..End(0, chunk, |image|)]))
    && (mode == 0x07 <==> image != [] && log[0].1 == Illegal)
  }

  lemma {:induction false} FirstSettled(log: seq<(Command, Answer)>, mode: nat, c: Command, rest: seq<Command>, ok: bool)
    requires mode == 0x0E ==> |log| == 1 && log[0].0 == c && (ok <==> log[0].1 == Good)
    requires mode == 0x07 ==> |log| == 2 && log[0].1 == Illegal && log[1].0 == c && (ok <==> log[1].1 == Good)
    requires mode == 0x0E || mode == 0x07
    ensures ok ==> Settled(log, mode) == AllGood([c])
    ensures !ok ==> GoesTo(Settled(log, mode), [c] + rest, false)
  {
  }

  method DownloadScsi(image: Bytes, chunk: nat) returns (log: seq<(Command, Answer)>, mode: nat, ok: bool)
    requires chunk >= 1
    ensures Downloaded(image, chunk, log, mode, ok)
  {
    if image == [] {
      log, mode, ok := [], 0x0E, true;
      NoMoreWrites(image, mode, chunk);
      AllTheWay([]);
      assert AllGood([]) == [];
      return;
    }
    log, mode, ok := FirstChunk(image, chunk);
    ghost var first := log[0];
    FirstAccepted(log);
    WritesStep(image, mode, chunk, 0);
    WritesStep(image, 0x0E, chunk, 0);
    FirstSettled(log, mode, Wired(mode, 0, image[..End(0, chunk, |image|)]), Writes(image, mode, chunk, End(0, chunk, |image|)), ok);
    hide Writes, Accepted, End, GoesTo, AllGood;
    EndAhead(0, chunk, |image|);
    if ok {
      log, ok := OtherChunks(image, chunk, mode, End(0, chunk, |image|), log);
      assert log[0] == first;
    }
  }

  method RunScsi(image: Bytes, chunk: nat) returns (log: seq<(Command, Answer)>, mode: nat, ok: bool)
    requires chunk >= 1
    ensures ScsiRun(image, chunk, log, mode, ok)
    ensures ScsiTold(image, chunk, log, mode, ok)
  {
    log, mode, ok := DownloadScsi(image, chunk);
    hide Downloaded, ScsiRun, ScsiTold;
    if ok && mode == 0x0E {
      var a: Answer := *;
      ActivatedRun(image, chunk, log, a);
      log := log + [(Activate, a)];
      ok := a == Good;
    } else {
      UnactivatedRun(image, chunk, log, mode, ok);
    }
  }

  lemma {:induction false} ActivatedRun(image: Bytes, chunk: nat, log: seq<(Command, Answer)>, a: Answer)
    requires chunk >= 1 && Downloaded(image, chunk, log, 0x0E, true)
    ensures ScsiRun(image, chunk, log + [(Activate, a)], 0x0E, a == Good)
    ensures ScsiTold(image, chunk, log + [(Activate, a)], 0x0E, a == Good)
  {
    hide Writes, Accepted, End, GoesTo, AllGood;
    AcceptedSnoc(log, Activate, a);
    assert (log + [(Activate, a)])[..|log|] == log;
    ActivationTold(Writes(image, 0x0E, chunk, 0), a);
  }

  lemma {:induction false} UnactivatedRun(image: Bytes, chunk: nat, log: seq<(Command, Answer)>, mode: nat, ok: bool)
    requires chunk >= 1 && Downloaded(image, chunk, log, mode, ok) && !(ok && mode == 0x0E)
    ensures ScsiRun(image, chunk, log, mode, ok) && ScsiTold(image, chunk, log, mode, ok)
  {
    var all := Writes(image, mode, chunk, 0);
    hide Writes, Accepted, End, GoesTo, AllGood;
    if mode == 0x0E { GoesFurther(log, all, [Activate]); }
    assert all + [] == all;
  }

  lemma {:induction false} ActivationTold(all: seq<Command>, a: Answer)
    ensures GoesTo(AllGood(all) + [(Activate, a)], all + [Activate], a == Good)
  {
  }

  /** So a run that succeeds has put exactly the image on the drive if and only
      if the last chunk starts below 2^24 and is shorter than that; beyond it
      the run succeeds all the same. */
  lemma {:induction false} ScsiTransfersImage(image: Bytes, chunk: nat, log: seq<(Command, Answer)>, mode: nat)
    requires chunk >= 1 && ScsiRun(image, chunk, log, mode, true)
    ensures var n := |Accepted(log)| - if mode == 0x0E then 1 else 0;
      && n >= 0
      && (Buffer(Accepted(log)[..n], mode, []) == Some(image) <==> Fits(|image|, chunk))
      && (Stored(Accepted(log)[..n], []) == image <==> Fits(|image|, chunk))
      && (forall k :: n <= k < |Accepted(log)| ==> Accepted(log)[k] == Activate)
  {
    WritesAreImage(image, mode, chunk);
    var all := Writes(image, mode, chunk, 0);
    hide Writes, Accepted, Fits, Buffer, Stored;
    assert Accepted(log)[..|all|] == all;
  }

  lemma {:induction false} AcceptedAll(cs: seq<Command>)
    ensures Accepted(AllGood(cs)) == cs
    decreases |cs|
  {
    if cs != [] {
      var n := |cs| - 1;
      AcceptedAll(cs[..n]);
      assert AllGood(cs)[..n] == AllGood(cs[..n]);
      assert cs[..n] + [cs[n]] == cs;
    }
  }

  lemma {:induction false} OnlyWrites(image: Bytes, mode: nat, chunk: nat, off: nat, k: nat)
    requires chunk >= 1 && off <= |image| && k < |Writes(image, mode, chunk, off)|
    ensures Writes(image, mode, chunk, off)[k].Write?
    decreases k
  {
    EndAhead(off, chunk, |image|);
    if k > 0 { OnlyWrites(image, mode, chunk, End(off, chunk, |image|), k - 1); }
  }

  /** The run in which the drive accepts everything. */
  lemma {:induction false} AllAcceptedRun(image: Bytes, chunk: nat)
    requires chunk >= 1
    ensures ScsiRun(image, chunk, AllGood(Writes(image, 0x0E, chunk, 0) + [Activate]), 0x0E, true)
  {
    var all := Writes(image, 0x0E, chunk, 0);
    var log := AllGood(all + [Activate]);
    forall k | 0 <= k < |all| ensures all[k].Write? { OnlyWrites(image, 0x0E, chunk, 0, k); }
    hide Writes, Accepted;
    AcceptedAll(all);
    AcceptedAll(all + [Activate]);
    assert log[..|all|] == AllGood(all);
  }

  /** The end of the image over its beginning. */
  function EndOverStart(image: Bytes): Bytes
    requires WIRE < |image| <= WIRE + 0x8000
  {
    image[WIRE..] + image[|image| - WIRE..WIRE]
  }

  /** The chunks of 32 KiB up to 2^24, and the one after it over the first. */
  lemma {:induction false} UpToWire(image: Bytes, mode: nat, off: nat)
    requires WIRE < |image| <= WIRE + 0x8000 && off <= WIRE && off % 0x8000 == 0
    ensures Stored(Writes(image, mode, 0x8000, off), image[..off]) == EndOverStart(image)
    decreases WIRE - off
  {
    hide Writes, Stored, Over, Low, Taken, End, EndOverStart;
    if off < WIRE {
      TakenBelow(image, off);
      OneStored(image, mode, 0x8000, off, image[..off]);
      InPlace(image, off, off + 0x8000);
      UpToWire(image, mode, off + 0x8000);
    } else {
      LastWraps(image, mode);
    }
  }

  lemma {:induction false} LastWraps(image: Bytes, mode: nat)
    requires WIRE < |image| <= WIRE + 0x8000
    ensures Stored(Writes(image, mode, 0x8000, WIRE), image[..WIRE]) == EndOverStart(image)
  {
    hide Writes, Stored, Over, Low, Taken, End, EndOverStart;
    TakenBelow(image, WIRE);
    OneStored(image, mode, 0x8000, WIRE, image[..WIRE]);
    WrapsOver(image);
    NoMoreTaken(image, mode, 0x8000, Over(image[..WIRE], 0, image[WIRE..]));
  }

  lemma {:induction false} TakenBelow(image: Bytes, off: nat)
    requires WIRE < |image| <= WIRE + 0x8000 && off <= WIRE && off % 0x8000 == 0
    ensures off < WIRE ==> off + 0x8000 <= WIRE && (off + 0x8000) % 0x8000 == 0
    ensures off < WIRE ==> End(off, 0x8000, |image|) == off + 0x8000 && Low(off) == off && Taken(image, 0x8000, off) == image[off..off + 0x8000]
    ensures off == WIRE ==> End(off, 0x8000, |image|) == |image| && Low(off) == 0 && Taken(image, 0x8000, off) == image[WIRE..]
  {
    assert Low(WIRE) == 0;
    hide Low;
  }

  lemma {:induction false} NotInOrder(image: Bytes, mode: nat, off: nat)
    requires WIRE < |image| <= WIRE + 0x8000 && off <= WIRE && off % 0x8000 == 0
    ensures Buffer(Writes(image, mode, 0x8000, off), mode, image[..off]) == None
    decreases WIRE - off
  {
    OneBuffered(image, mode, 0x8000, off, image[..off]);
    TakenBelow(image, off);
    hide Writes, Buffer, Low, Taken, End;
    if off < WIRE {
      InPlace(image, off, off + 0x8000);
      NotInOrder(image, mode, off + 0x8000);
    }
  }

  lemma {:induction false} WrapsOver(image: Bytes)
    requires WIRE < |image| <= WIRE + 0x8000
    ensures Over(image[..WIRE], 0, image[WIRE..]) == EndOverStart(image)
  {
    assert image[..WIRE][|image| - WIRE..] == image[|image| - WIRE..WIRE];
  }

  /** An image of up to 32 KiB more than 16 MiB, in the usual chunks, to a drive
      that accepts them all: the update succeeds and is activated, and what is
      on the drive is the image with its end over its beginning. */
  lemma {:induction false} LargeImageWraps(image: Bytes)
    requires WIRE < |image| <= WIRE + 0x8000
    ensures var all := Writes(image, 0x0E, 0x8000, 0);
      && ScsiRun(image, 0x8000, AllGood(all + [Activate]), 0x0E, true)
      && Buffer(all, 0x0E, []) == None
      && Stored(all, []) == image[WIRE..] + image[|image| - WIRE..WIRE]
      && !Fits(|image|, 0x8000)
  {
    hide Writes, Buffer, Stored, Fits, ScsiRun;
    AllAcceptedRun(image, 0x8000);
    assert image[..0] == [];
    UpToWire(image, 0x0E, 0);
    NotInOrder(image, 0x0E, 0);
    FitsBySize(|image|, 0x8000, 512);
  }

  /** A drive that asks for 2^24 as its offset boundary is sent a length of 0
      with the first 16 MiB. */
  lemma {:induction false} WholeChunkSaysNothing(image: Bytes, mode: nat, configured: nat)
    requires configured <= WIRE <= |image|
    ensures ChunkLen(configured, WIRE) == WIRE
    ensures Writes(image, mode, WIRE, 0)[0] == Write(mode, 0, 0, image[..WIRE]) && !Fits(|image|, WIRE)
  {
    ChunkLenLeast(configured, WIRE, WIRE);
    WritesStep(image, mode, WIRE, 0);
    FitsBySize(|image|, WIRE, 1);
  }

  // ------------------------------------------------ NVMe

  function PadTo4(data: Bytes): (p: Bytes)
    ensures |p| % 4 == 0 && data <= p && |p| - |data| < 4
    ensures |data| % 4 == 0 ==> p == data
    ensures forall k :: |data| <= k < |p| ==> p[k] == 0
  {
    data + seq((4 - |data| % 4) % 4, _ => 0)
  }

  /** NUMD and OFST count dwords, the first less one. */
  function DownloadOf(data: Bytes, off: nat): Command
    requires |data| >= 4
  {
    Download(|data| / 4 - 1, off / 4, data)
  }

  function Downloads(image: Bytes, chunk: nat, off: nat): seq<Command>
    requires chunk >= 1 && off <= |image|
    decreases |image| - off
  {
    if off == |image| then []
    else
      var data := PadTo4(image[off..End(off, chunk, |image|)]);
      [DownloadOf(data, off)] + Downloads(image, chunk, End(off, chunk, |image|))
  }

  /** What the controller has: dwords in order, as many as each command says. */
  function Slot(sent: seq<Command>, have: Bytes): Option<Bytes>
    decreases |sent|
  {
    if sent == [] then Some(have)
    else if !sent[0].Download? || 4 * sent[0].ofst != |have| || 4 * (sent[0].numd + 1) != |sent[0].data| then None
    else Slot(sent[1..], have + sent[0].data)
  }

  /** The controller ends up with the image, padded with under four bytes at
      its very end. */
  lemma {:induction false} DownloadsAreImage(image: Bytes, chunk: nat, off: nat)
    requires chunk >= 4 && chunk % 4 == 0 && off <= |image| && (off % 4 == 0 || off == |image|)
    ensures off % 4 == 0 ==> Slot(Downloads(image, chunk, off), image[..off]) == Some(PadTo4(image))
    decreases |image| - off
  {
    hide PadTo4;
    if off == |image| {
      assert image[..off] == image;
    } else {
      var end := End(off, chunk, |image|);
      OneDownload(image, chunk, off);
      EndWords(|image|, chunk, off);
      hide Downloads, Slot, End;
      if end == |image| && end % 4 != 0 {
        NoMoreDownloads(image, chunk);
        assert image[off..end] == image[off..];
        PadEnd(image, off);
      } else {
        DownloadsAreImage(image, chunk, end);
        assert image[..off] + image[off..end] == image[..end];
      }
    }
  }

  lemma {:induction false} EndWords(n: nat, chunk: nat, off: nat)
    requires chunk >= 4 && chunk % 4 == 0 && off < n && off % 4 == 0
    ensures var end := End(off, chunk, n);
      off < end <= n && (end % 4 == 0 ==> (end - off) % 4 == 0) && (end == n || end % 4 == 0)
  {
    SameRest(End(off, chunk, n), off);
  }

  lemma {:induction false} OneDownload(image: Bytes, chunk: nat, off: nat)
    requires chunk >= 1 && off < |image| && off % 4 == 0
    ensures var end := End(off, chunk, |image|);
      Slot(Downloads(image, chunk, off), image[..off])
        == Slot(Downloads(image, chunk, end), image[..off] + PadTo4(image[off..end]))
  {
    var end := End(off, chunk, |image|);
    DownloadsStep(image, chunk, off);
    var all := Downloads(image, chunk, off);
    assert all[1..] == Downloads(image, chunk, end);
    hide Downloads, PadTo4, End;
    var data := PadTo4(image[off..end]);
    assert 4 * (off / 4) == off && 4 * (|data| / 4 - 1 + 1) == |data|;
  }

  lemma {:induction false} PadEnd(image: Bytes, off: nat)
    requires off <= |image| && off % 4 == 0
    ensures image[..off] + PadTo4(image[off..]) == PadTo4(image)
  {
    var rest := image[off..];
    SameRest(|image|, off);
    var pad: Bytes := seq((4 - |image| % 4) % 4, _ => 0);
    assert PadTo4(rest) == rest + pad && PadTo4(image) == image + pad;
    assert image[..off] + (rest + pad) == (image[..off] + rest) + pad;
    assert image[..off] + rest == image;
  }

  lemma {:induction false} SameRest(n: nat, off: nat)
    requires off <= n && off % 4 == 0
    ensures (n - off) % 4 == n % 4
  {
  }

  lemma {:induction false} DownloadsStep(image: Bytes, chunk: nat, off: nat)
    requires chunk >= 1 && off < |image|
    ensures var data := PadTo4(image[off..End(off, chunk, |image|)]);
      |data| >= 4 && Downloads(image, chunk, off) == [DownloadOf(data, off)] + Downloads(image, chunk, End(off, chunk, |image|))
  {
  }

  method RunNvme(image: Bytes, configured: nat) returns (log: seq<(Command, Answer)>, ok: bool)
    ensures Accepted(log) <= Downloads(image, ChunkLen(configured, 4096), 0)
    ensures ok ==> Accepted(log) == Downloads(image, ChunkLen(configured, 4096), 0) && Slot(Accepted(log), []) == Some(PadTo4(image))
    ensures GoesTo(log, Downloads(image, ChunkLen(configured, 4096), 0), ok)
  {
    var chunk := ChunkLen(configured, 4096);
    ghost var all := Downloads(image, chunk, 0);
    var off := 0;
    log, ok := [], true;
    hide ChunkLen, Downloads, DownloadOf, End, PadTo4, Slot, GoesTo;
    assert Accepted(log) == [] && all == [] + all && log == AllGood([]);
    hide AllGood;
    hide Accepted;
    while off < |image| && ok
      invariant off <= |image| && Accepted(log) <= all
      invariant ok ==> all == Accepted(log) + Downloads(image, chunk, off)
      invariant if ok then log == AllGood(Accepted(log)) else GoesTo(log, all, false)
      decreases |image| - off, ok
    {
      EndAhead(off, chunk, |image|);
      DownloadsStep(image, chunk, off);
      var end := End(off, chunk, |image|);
      var data := Padding(image[off..end]);
      var c := DownloadOf(data, off);
      var a: Answer := *;
      AcceptedSnoc(log, c, a);
      OneMore(all, Accepted(log), c, Downloads(image, chunk, end));
      GoodMore(Accepted(log), c);
      if a != Good { StopsHere(Accepted(log), c, a, Downloads(image, chunk, end)); }
      log := log + [(c, a)];
      if a == Good { off := end; } else { ok := false; }
    }
    if ok {
      NoMoreDownloads(image, chunk);
      AllDownloaded(image, configured);
      assert Accepted(log) == all;
      AllTheWay(all);
    }
  }

  lemma {:induction false} AllDownloaded(image: Bytes, configured: nat)
    ensures Slot(Downloads(image, ChunkLen(configured, 4096), 0), []) == Some(PadTo4(image))
  {
    Words(configured);
    hide ChunkLen, Downloads, Slot, PadTo4;
    DownloadsAreImage(image, ChunkLen(configured, 4096), 0);
    assert image[..0] == [];
  }

  lemma {:induction false} NoMoreDownloads(image: Bytes, chunk: nat)
    requires chunk >= 1
    ensures Downloads(image, chunk, |image|) == []
  {
  }

  lemma {:induction false} Words(configured: nat)
    ensures ChunkLen(configured, 4096) % 4 == 0
  {
    RoundedUp(if configured < 512 then 512 else configured, 4096);
  }

  method Padding(data: Bytes) returns (p: Bytes)
    ensures p == PadTo4(data)
  {
    p := data;
    while |p| % 4 != 0
      invariant |data| <= |p| <= |PadTo4(data)| && p == PadTo4(data)[..|p|]
      decreases |PadTo4(data)| - |p|
    {
      p := p + [0];
    }
  }
}
